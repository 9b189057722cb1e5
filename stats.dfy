/**
 * One pass of the statistics part of `main` (covid_stats.py:280-439) for a
 * date the user chose and a location (0-4 for one zone, 5 for all of
 * Alberta): either there is no population data for the date, and the
 * program asks for another date, or it reports the vaccination figures and
 * the case figures.
 */
module Stats {
  import opened Wrappers
  import opened Tables
  import opened Sequences
  import opened HealthZones
  import opened PopulationMatch
  import opened VaccinationStats
  import opened Cases

  datatype QueryResult =
    | NoDataForDate
    | Report(vaccination: VaccinationReport, cases: CaseReport)

  /** What the statistics read without failing once population data for the
      date is found: usable zone rows, and case rows naming valid zones. */
  predicate QueryDataUsable(populations: Table, vaccinations: Table, covidCases: Table, month: int, day: int)
    requires Wide(populations, POP_COL + 1)
  {
    var found := MatchSpec(populations, month, day);
    found.Some? ==>
      && found.value.indexes != []
      && ZoneDataUsable(found.value.popData, VaccinationSlice(vaccinations, found.value.indexes))
      && CaseDataUsable(covidCases, month, day)
  }

  /** Lines 280-439: match the population rows, then compute the vaccination
      report for the location and the case report on the zone objects it
      built. The zone objects end with their number, name, population and
      rounded rates, and with the number of cases on the date in the zone. */
  method Query(populations: Table, vaccinations: Table, covidCases: Table, month: int, day: int,
               location: int, round2: real -> real)
    returns (result: QueryResult, zoneObjs: seq<HealthZone>)
    requires Wide(populations, POP_COL + 1) && 0 <= location <= ALL_ALBERTA
    requires QueryDataUsable(populations, vaccinations, covidCases, month, day)
    ensures result.NoDataForDate? <==> forall i :: 0 <= i < |populations| ==> !OnDate(populations[i], month, day)
    ensures result.Report? ==>
              && MatchSpec(populations, month, day).Some?
              && var m := MatchSpec(populations, month, day).value;
                 result.vaccination == VaccinationSpec(m.popData, VaccinationSlice(vaccinations, m.indexes), location, round2)
    ensures result.Report? ==>
              var c := result.cases;
              && CaseDataUsable(covidCases, month, day)
              && Distinct(c.caseIndexes)
              && (forall x: nat :: x in c.caseIndexes <==> x < |covidCases| && OnDate(covidCases[x], month, day))
              && |c.caseRows| == CountOnDate(covidCases, month, day)
              && ValidHits(covidCases, c.caseIndexes) && c.caseRows == RowsAt(covidCases, c.caseIndexes)
              && |c.caseCounts| == ZONE_COUNT
              && (forall z :: 0 <= z < ZONE_COUNT ==> c.caseCounts[z] == |ZoneCaseSet(covidCases, month, day, z)|)
              && c.maxCaseZone == ArgMaxInt(c.caseCounts)
    ensures result.NoDataForDate? ==> zoneObjs == []
    ensures result.Report? ==>
              && MatchSpec(populations, month, day).Some?
              && var m := MatchSpec(populations, month, day).value;
                 && m.indexes != []
                 && ZoneDataUsable(m.popData, VaccinationSlice(vaccinations, m.indexes))
                 && var rates := ZoneVaccRates(m.popData, VaccinationSlice(vaccinations, m.indexes), round2);
                    && |zoneObjs| == ZONE_COUNT
                    && forall z :: 0 <= z < ZONE_COUNT ==>
                         && zoneObjs[z].zoneNum == z && zoneObjs[z].zoneName == ZONE_NAMES[z]
                         && zoneObjs[z].population == m.popData[z][POP_COL]
                         && zoneObjs[z].dose1Rate == Some(rates[z].0) && zoneObjs[z].dose2Rate == Some(rates[z].1)
                         && zoneObjs[z].caseNum == result.cases.caseCounts[z]
  {
    var found := MatchPopulation(populations, month, day);
    if found.None? {
      result, zoneObjs := NoDataForDate, [];
    } else {
      var m := found.value;
      var vaccination;
      vaccination, zoneObjs := ZoneStats(m.popData, m.indexes, vaccinations, location, round2);
      ghost var rates := ZoneVaccRates(m.popData, VaccinationSlice(vaccinations, m.indexes), round2);
      assert forall z :: 0 <= z < ZONE_COUNT ==>
               zoneObjs[z].dose1Rate == Some(rates[z].0) && zoneObjs[z].dose2Rate == Some(rates[z].1) by {
        forall z | 0 <= z < ZONE_COUNT
          ensures zoneObjs[z].dose1Rate == Some(rates[z].0) && zoneObjs[z].dose2Rate == Some(rates[z].1)
        {
          assert DoseRate(zoneObjs[z], 1) == Some(RateColumn(rates, 1)[z]);
          assert DoseRate(zoneObjs[z], 2) == Some(RateColumn(rates, 2)[z]);
        }
      }
      var cases := CaseStats(covidCases, month, day, zoneObjs);
      result := Report(vaccination, cases);
    }
  }
}
