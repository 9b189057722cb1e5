/**
 * Finding the population rows for a date (covid_stats.py:281-317).
 *
 * The population table has the columns month, day, zone and population. The
 * program takes numpy's hits for the month, keeps those on the exact date, and
 * then drops every hit whose population equals the population of the hit
 * scanned just before it. What survives is `pop_data` with its row `indexes`;
 * when nothing is on the date the program reports that there is no data and
 * asks for another date.
 */
module PopulationMatch {
  import opened Wrappers
  import opened Tables
  import opened Sequences

  /** The population column of the population table. */
  const POP_COL: nat := 3

  /** The population rows kept for a date, and their row indexes. */
  datatype Match = Match(popData: seq<Row>, indexes: seq<nat>)

  /** Consecutive entries of `s` name rows of different population. */
  predicate NoAdjacentRepeats(t: Table, s: seq<nat>)
    requires Wide(t, POP_COL + 1) && ValidHits(t, s)
  {
    forall k :: 0 < k < |s| ==> t[s[k]][POP_COL] != t[s[k - 1]][POP_COL]
  }

  /** The deduplication as written (lines 298-308): the first hit is kept, and
      every later hit is kept iff its population differs from that of the hit
      scanned just before it, whether or not that one was kept. */
  function DropRepeats(t: Table, hits: seq<nat>): (r: seq<nat>)
    requires Wide(t, POP_COL + 1) && ValidHits(t, hits)
    ensures |r| <= |hits|
    ensures ValidHits(t, r)
    ensures hits != [] ==> r != [] && r[0] == hits[0]
    ensures forall x :: x in r ==> x in hits
  {
    if |hits| <= 1 then hits
    else
      var n := |hits|;
      DropRepeats(t, hits[..n - 1])
        + (if t[hits[n - 1]][POP_COL] != t[hits[n - 2]][POP_COL] then [hits[n - 1]] else [])
  }

  /** Reference deduplication: collapse every run of rows with equal
      population to its first row, comparing each hit with the last row kept. */
  function CollapseRuns(t: Table, hits: seq<nat>): (r: seq<nat>)
    requires Wide(t, POP_COL + 1) && ValidHits(t, hits)
    ensures ValidHits(t, r)
    ensures NoAdjacentRepeats(t, r)
    ensures hits != [] ==> r != [] && t[r[|r| - 1]][POP_COL] == t[hits[|hits| - 1]][POP_COL]
  {
    if hits == [] then []
    else
      var n := |hits|;
      var prev := CollapseRuns(t, hits[..n - 1]);
      if prev != [] && t[prev[|prev| - 1]][POP_COL] == t[hits[n - 1]][POP_COL] then prev
      else prev + [hits[n - 1]]
  }

  /** The reference keeps a new hit iff its population differs from the
      previous hit's, since the last row it kept has that hit's population. */
  lemma CollapseRunsStep(t: Table, hits: seq<nat>)
    requires Wide(t, POP_COL + 1) && ValidHits(t, hits) && |hits| > 1
    ensures CollapseRuns(t, hits)
         == CollapseRuns(t, hits[..|hits| - 1])
            + (if t[hits[|hits| - 1]][POP_COL] != t[hits[|hits| - 2]][POP_COL] then [hits[|hits| - 1]] else [])
  {
    var n := |hits|;
    var front := hits[..n - 1];
    var prev := CollapseRuns(t, front);
    assert front[|front| - 1] == hits[n - 2];
    assert prev != [] && t[prev[|prev| - 1]][POP_COL] == t[hits[n - 2]][POP_COL];
  }

  /** Comparing with the previous scanned hit is the same as comparing with
      the last kept row: a dropped hit has the population of the hit before it,
      which by induction is the population of the last kept row. */
  lemma {:induction false} DropRepeatsIsCollapseRuns(t: Table, hits: seq<nat>)
    requires Wide(t, POP_COL + 1) && ValidHits(t, hits)
    ensures DropRepeats(t, hits) == CollapseRuns(t, hits)
  {
    var n := |hits|;
    if n == 1 {
      assert hits[..0] == [];
    } else if n > 1 {
      DropRepeatsIsCollapseRuns(t, hits[..n - 1]);
      CollapseRunsStep(t, hits);
    }
  }

  /** No two adjacent kept rows have the same population. */
  lemma KeptPopulationsDiffer(t: Table, hits: seq<nat>)
    requires Wide(t, POP_COL + 1) && ValidHits(t, hits)
    ensures NoAdjacentRepeats(t, DropRepeats(t, hits))
  {
    DropRepeatsIsCollapseRuns(t, hits);
  }

  /** A hit list with no adjacent equal populations passes the deduplication unchanged. */
  lemma {:induction false} DropRepeatsKeepsDistinct(t: Table, s: seq<nat>)
    requires Wide(t, POP_COL + 1) && ValidHits(t, s)
    requires NoAdjacentRepeats(t, s)
    ensures DropRepeats(t, s) == s
  {
    var n := |s|;
    if n > 1 {
      var front := s[..n - 1];
      assert NoAdjacentRepeats(t, front) by {
        forall k | 0 < k < |front|
          ensures t[front[k]][POP_COL] != t[front[k - 1]][POP_COL]
        {
          assert front[k] == s[k] && front[k - 1] == s[k - 1];
        }
      }
      DropRepeatsKeepsDistinct(t, front);
      assert s == front + [s[n - 1]];
    }
  }

  /** Running the deduplication a second time changes nothing. */
  lemma DropRepeatsIdempotent(t: Table, hits: seq<nat>)
    requires Wide(t, POP_COL + 1) && ValidHits(t, hits)
    ensures DropRepeats(t, DropRepeats(t, hits)) == DropRepeats(t, hits)
  {
    KeptPopulationsDiffer(t, hits);
    DropRepeatsKeepsDistinct(t, DropRepeats(t, hits));
  }

  /** A strictly increasing sequence stays so when a larger element is appended. */
  lemma AppendIncreasing(prev: seq<nat>, last: nat)
    requires StrictlyIncreasing(prev) && forall x :: x in prev ==> x < last
    ensures StrictlyIncreasing(prev + [last])
  {
    var r := prev + [last];
    forall i, j | 0 <= i < j < |r|
      ensures r[i] < r[j]
    {
      if j == |prev| {
        assert r[i] in prev;
      }
    }
  }

  /** On hits in numpy's order the kept indexes strictly increase, so the
      repeated reports numpy gives for one row never survive: repeats of a row
      are adjacent and share its population. */
  lemma {:induction false} DropRepeatsIncreasing(t: Table, hits: seq<nat>)
    requires Wide(t, POP_COL + 1) && ValidHits(t, hits)
    requires NonDecreasing(hits)
    ensures StrictlyIncreasing(DropRepeats(t, hits))
  {
    var n := |hits|;
    if n > 1 {
      var front := hits[..n - 1];
      DropRepeatsIncreasing(t, front);
      var prev := DropRepeats(t, front);
      if t[hits[n - 1]][POP_COL] != t[hits[n - 2]][POP_COL] {
        var last := hits[n - 1];
        assert hits[n - 2] < last;
        forall x | x in prev
          ensures x < last
        {
          var k :| 0 <= k < |front| && front[k] == x;
          assert hits[k] <= hits[n - 2];
        }
        AppendIncreasing(prev, last);
      }
    }
  }

  /** The population rows for a date, as lines 284-308 compute them; None
      stands for the "no data for that date" branch of lines 310-317. */
  function MatchSpec(t: Table, month: int, day: int): Option<Match>
    requires Wide(t, POP_COL + 1)
  {
    var hits := DateHits(t, WhereRows(t, month), month, day);
    if hits == [] then None
    else
      var idx := DropRepeats(t, hits);
      Some(Match(RowsAt(t, idx), idx))
  }

  /** There is no data for a date exactly when no row of the table is on it. */
  lemma MatchNoDataIff(t: Table, month: int, day: int)
    requires Wide(t, POP_COL + 1)
    ensures MatchSpec(t, month, day).None?
        <==> (forall i :: 0 <= i < |t| ==> !OnDate(t[i], month, day))
  {
    DateHitsOfWhere(t, month, day);
    var hits := DateHits(t, WhereRows(t, month), month, day);
    if hits != [] {
      assert hits[0] in hits;
    }
  }

  /** Every kept row is a row of the table on the queried date, and `popData`
      holds the rows at `indexes`. */
  lemma MatchRowsOnDate(t: Table, month: int, day: int)
    requires Wide(t, POP_COL + 1)
    ensures MatchSpec(t, month, day).Some? ==>
              var m := MatchSpec(t, month, day).value;
              && |m.popData| == |m.indexes|
              && forall k :: 0 <= k < |m.indexes| ==>
                   m.indexes[k] < |t| && m.popData[k] == t[m.indexes[k]] && OnDate(m.popData[k], month, day)
  {
    DateHitsOfWhere(t, month, day);
    var hits := DateHits(t, WhereRows(t, month), month, day);
    if hits != [] {
      var idx := DropRepeats(t, hits);
      forall k | 0 <= k < |idx|
        ensures OnDate(t[idx[k]], month, day)
      {
        assert idx[k] in hits;
      }
    }
  }

  /** The kept indexes strictly increase, so no row is kept twice. */
  lemma MatchIndexesIncrease(t: Table, month: int, day: int)
    requires Wide(t, POP_COL + 1)
    ensures MatchSpec(t, month, day).Some? ==> StrictlyIncreasing(MatchSpec(t, month, day).value.indexes)
  {
    var hits := DateHits(t, WhereRows(t, month), month, day);
    DateHitsOrdered(t, WhereRows(t, month), month, day);
    DropRepeatsIncreasing(t, hits);
  }

  /** The first row of the table on the date is always kept, first. */
  lemma MatchFirstRowKept(t: Table, month: int, day: int)
    requires Wide(t, POP_COL + 1)
    ensures MatchSpec(t, month, day).Some? ==>
              var first := MatchSpec(t, month, day).value.indexes[0];
              && first < |t| && OnDate(t[first], month, day)
              && forall i :: 0 <= i < first ==> !OnDate(t[i], month, day)
  {
    DateHitsOfWhere(t, month, day);
    DateHitsOrdered(t, WhereRows(t, month), month, day);
    var hits := DateHits(t, WhereRows(t, month), month, day);
    if hits != [] {
      assert forall i :: 0 <= i < hits[0] ==> !OnDate(t[i], month, day);
    }
  }

  /** No two adjacent kept rows have the same population. */
  lemma MatchAdjacentPopulationsDiffer(t: Table, month: int, day: int)
    requires Wide(t, POP_COL + 1)
    ensures MatchSpec(t, month, day).Some? ==>
              var m := MatchSpec(t, month, day).value;
              forall k :: 0 < k < |m.popData| ==> m.popData[k][POP_COL] != m.popData[k - 1][POP_COL]
  {
    var hits := DateHits(t, WhereRows(t, month), month, day);
    KeptPopulationsDiffer(t, hits);
  }

  /** The deduplication keeps the hit at position `k`: the first hit, or one
      whose population differs from the hit scanned just before it. */
  predicate KeptAt(t: Table, hits: seq<nat>, k: nat)
    requires Wide(t, POP_COL + 1) && ValidHits(t, hits) && k < |hits|
  {
    k == 0 || t[hits[k]][POP_COL] != t[hits[k - 1]][POP_COL]
  }

  /** The last hit survives when the deduplication keeps its position. */
  lemma KeptLast(t: Table, hits: seq<nat>)
    requires Wide(t, POP_COL + 1) && ValidHits(t, hits) && hits != [] && KeptAt(t, hits, |hits| - 1)
    ensures hits[|hits| - 1] in DropRepeats(t, hits)
  {
  }

  /** Keeping a position before the last is decided on the hits before the
      last one. */
  lemma KeptInFront(t: Table, hits: seq<nat>, k: nat)
    requires Wide(t, POP_COL + 1) && ValidHits(t, hits) && k < |hits| - 1 && KeptAt(t, hits, k)
    ensures ValidHits(t, hits[..|hits| - 1]) && hits[..|hits| - 1][k] == hits[k]
    ensures KeptAt(t, hits[..|hits| - 1], k)
  {
    var front := hits[..|hits| - 1];
    assert k > 0 ==> front[k - 1] == hits[k - 1];
  }

  /** Scanning one more hit never drops a hit already kept. */
  lemma KeptStaysKept(t: Table, hits: seq<nat>, x: nat)
    requires Wide(t, POP_COL + 1) && ValidHits(t, hits) && |hits| > 1
    requires ValidHits(t, hits[..|hits| - 1]) && x in DropRepeats(t, hits[..|hits| - 1])
    ensures x in DropRepeats(t, hits)
  {
  }

  /** The hit at a position the deduplication keeps survives it. */
  lemma {:induction false} DropRepeatsKeeps(t: Table, hits: seq<nat>, k: nat)
    requires Wide(t, POP_COL + 1) && ValidHits(t, hits) && k < |hits| && KeptAt(t, hits, k)
    ensures hits[k] in DropRepeats(t, hits)
  {
    if k == |hits| - 1 {
      KeptLast(t, hits);
    } else {
      KeptInFront(t, hits, k);
      DropRepeatsKeeps(t, hits[..|hits| - 1], k);
      KeptStaysKept(t, hits, hits[k]);
    }
  }

  /** Every row that survives the deduplication is the hit at a position it
      keeps. */
  lemma {:induction false} DropRepeatsWitness(t: Table, hits: seq<nat>, x: nat) returns (k: nat)
    requires Wide(t, POP_COL + 1) && ValidHits(t, hits) && x in DropRepeats(t, hits)
    ensures k < |hits| && hits[k] == x && KeptAt(t, hits, k)
  {
    var n := |hits|;
    if n == 1 {
      k := 0;
    } else {
      var front := hits[..n - 1];
      if x in DropRepeats(t, front) {
        k := DropRepeatsWitness(t, front, x);
        assert front[k] == hits[k] && (k > 0 ==> front[k - 1] == hits[k - 1]);
      } else {
        k := n - 1;
      }
    }
  }

  /** The greatest row below `x` on the date, if there is one. */
  function PrevOnDate(t: Table, month: int, day: int, x: nat): (p: Option<nat>)
    requires Wide(t, DAY_COL + 1) && x <= |t|
    ensures p.Some? ==> p.value < x && OnDate(t[p.value], month, day)
    ensures p.Some? ==> forall i :: p.value < i < x ==> !OnDate(t[i], month, day)
    ensures p.None? ==> forall i :: 0 <= i < x ==> !OnDate(t[i], month, day)
  {
    if x == 0 then None
    else if OnDate(t[x - 1], month, day) then Some(x - 1)
    else PrevOnDate(t, month, day, x - 1)
  }

  /** On hits in numpy's order a later report of a row is never kept: it
      follows a report of the same row. */
  lemma LaterReportDropped(t: Table, hits: seq<nat>, k0: nat, k: nat)
    requires Wide(t, POP_COL + 1) && ValidHits(t, hits) && NonDecreasing(hits)
    requires k0 < k < |hits| && hits[k] == hits[k0]
    ensures !KeptAt(t, hits, k)
  {
    assert hits[k0] <= hits[k - 1] <= hits[k];
  }

  /** On hits in numpy's order a row survives the deduplication iff its
      first report is the first hit, or the hit just before its first report
      has a different population: its later reports follow a report of the
      same row, and so of the same population. */
  lemma DropRepeatsFirstReport(t: Table, hits: seq<nat>, x: nat)
    requires Wide(t, POP_COL + 1) && ValidHits(t, hits) && NonDecreasing(hits) && x in hits
    ensures x in DropRepeats(t, hits) <==>
              var k0 := IndexOf(hits, x);
              k0 == 0 || t[hits[k0 - 1]][POP_COL] != t[x][POP_COL]
  {
    var k0 := IndexOf(hits, x);
    forall k | k0 < k < |hits| && hits[k] == x
      ensures !KeptAt(t, hits, k)
    {
      LaterReportDropped(t, hits, k0, k);
    }
    if x in DropRepeats(t, hits) {
      var k := DropRepeatsWitness(t, hits, x);
    }
    if KeptAt(t, hits, k0) {
      DropRepeatsKeeps(t, hits, k0);
    }
  }

  /** On hits in numpy's order that are exactly the rows on the date, the
      hit just before a row's first report is the nearest row above it on the
      date, and there is none iff the row is reported first. */
  lemma FirstReportFollowsPrev(t: Table, month: int, day: int, hits: seq<nat>, x: nat)
    requires Wide(t, DAY_COL + 1) && ValidHits(t, hits) && NonDecreasing(hits) && x in hits
    requires forall y: nat :: y in hits <==> y < |t| && OnDate(t[y], month, day)
    ensures x < |t|
    ensures var k0 := IndexOf(hits, x);
            && (k0 == 0 <==> PrevOnDate(t, month, day, x).None?)
            && (k0 > 0 ==> PrevOnDate(t, month, day, x) == Some(hits[k0 - 1]))
  {
    var k0 := IndexOf(hits, x);
    var prev := PrevOnDate(t, month, day, x);
    if k0 > 0 {
      var q := hits[k0 - 1];
      assert q in hits;
      assert q <= hits[k0] && q != x;
    }
    if prev.Some? {
      var p := prev.value;
      assert p in hits;
      var j :| 0 <= j < |hits| && hits[j] == p;
      assert hits[j] < hits[k0];
      assert j < k0;
      var q := hits[k0 - 1];
      assert q in hits;
      assert hits[k0 - 1] <= hits[k0];
      assert q != x;
      assert p <= q <= p;
    }
  }

  /** Which rows on the date are kept: a row on the date is kept iff no row
      above it is on the date, or its population differs from that of the
      nearest row above it on the date. numpy's repeated reports of a row
      change nothing. */
  lemma MatchKeepsRow(t: Table, month: int, day: int, x: nat)
    requires Wide(t, POP_COL + 1) && x < |t| && OnDate(t[x], month, day)
    ensures MatchSpec(t, month, day).Some?
    ensures x in MatchSpec(t, month, day).value.indexes <==>
              var prev := PrevOnDate(t, month, day, x);
              prev.None? || t[prev.value][POP_COL] != t[x][POP_COL]
  {
    DateHitsOfWhere(t, month, day);
    DateHitsOrdered(t, WhereRows(t, month), month, day);
    var hits := DateHits(t, WhereRows(t, month), month, day);
    assert x in hits;
    DropRepeatsFirstReport(t, hits, x);
    FirstReportFollowsPrev(t, month, day, hits, x);
  }

  /** Scanning one more hit appends it when its population differs from the
      previous hit's. */
  lemma DropRepeatsStep(t: Table, hits: seq<nat>, i: nat)
    requires Wide(t, POP_COL + 1) && ValidHits(t, hits) && 1 <= i < |hits|
    ensures ValidHits(t, hits[..i]) && ValidHits(t, hits[..i + 1])
    ensures DropRepeats(t, hits[..i + 1])
         == DropRepeats(t, hits[..i]) + (if t[hits[i]][POP_COL] != t[hits[i - 1]][POP_COL] then [hits[i]] else [])
  {
    assert hits[..i + 1][..i] == hits[..i];
  }

  /** Lines 298-308: keep the first hit, then every hit whose population
      differs from the previous hit's. The `i += 1` of line 308 rebinds the
      loop variable of a Python `for` and skips nothing. */
  method DropRepeatedPopulations(populations: Table, tempData: seq<Row>, tempIndexes: seq<nat>)
    returns (popData: seq<Row>, indexes: seq<nat>)
    requires Wide(populations, POP_COL + 1) && ValidHits(populations, tempIndexes)
    requires tempIndexes != [] && tempData == RowsAt(populations, tempIndexes)
    ensures indexes == DropRepeats(populations, tempIndexes)
    ensures popData == RowsAt(populations, indexes)
  {
    indexes := [tempIndexes[0]];
    popData := [tempData[0]];
    assert tempIndexes[..1] == [tempIndexes[0]];
    for i := 1 to |tempData|
      invariant ValidHits(populations, tempIndexes[..i])
      invariant indexes == DropRepeats(populations, tempIndexes[..i])
      invariant popData == RowsAt(populations, indexes)
    {
      DropRepeatsStep(populations, tempIndexes, i);
      if tempData[i][POP_COL] != tempData[i - 1][POP_COL] {
        RowsAtAppend(populations, indexes, tempIndexes[i]);
        popData := popData + [tempData[i]];
        indexes := indexes + [tempIndexes[i]];
      }
    }
    assert tempIndexes[..|tempData|] == tempIndexes;
  }

  /** Lines 284-317: the population rows for a date, or None for the "no
      data for that date" branch, after which the caller asks for another date. */
  method MatchPopulation(populations: Table, month: int, day: int) returns (found: Option<Match>)
    requires Wide(populations, POP_COL + 1)
    ensures found == MatchSpec(populations, month, day)
    ensures found.None? <==> forall i :: 0 <= i < |populations| ==> !OnDate(populations[i], month, day)
  {
    MatchNoDataIff(populations, month, day);
    var tempData, tempIndexes := CollectDateHits(populations, month, day);
    if |tempIndexes| != 0 {
      var popData, indexes := DropRepeatedPopulations(populations, tempData, tempIndexes);
      found := Some(Match(popData, indexes));
    } else {
      found := None;
    }
  }
}
