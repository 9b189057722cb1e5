/**
 * Vaccination statistics for the chosen date and location
 * (covid_stats.py:174-198 and 320-393): the vaccination rows taken by the
 * population row indexes, a HealthZone per zone with its rounded uptake
 * rates, and, for all of Alberta, its population, the zone with the highest
 * rate of each dose and the population-weighted uptake.
 */
module VaccinationStats {
  import opened Wrappers
  import opened Tables
  import opened Sequences
  import opened HealthZones
  import opened PopulationMatch
  import opened Rates

  /** The vaccination-table columns of first and second doses given. */
  const DOSE1_COL: nat := 3
  const DOSE2_COL: nat := 4

  /** Location 0-4 is one zone; ALL_ALBERTA (5) is all of Alberta. */
  const ALL_ALBERTA: int := 5

  /** Python's `s[lo:hi]` for non-negative bounds: both bounds are clamped to the length. */
  function Slice<T>(s: seq<T>, lo: nat, hi: nat): (r: seq<T>)
    ensures |r| == if lo < hi && lo < |s| then (if hi < |s| then hi else |s|) - lo else 0
    ensures forall k :: 0 <= k < |r| ==> lo + k < |s| && r[k] == s[lo + k]
  {
    var a := if lo < |s| then lo else |s|;
    var b := if hi < |s| then hi else |s|;
    if a < b then s[a..b] else []
  }

  /** Line 320: `vaccinations[indexes[0]:indexes[-1]+1]`, the vaccination rows
      from the first kept population index to the last, which the program then
      reads as if row `z` were zone `z`. */
  function VaccinationSlice(vaccinations: Table, indexes: seq<nat>): seq<Row>
    requires indexes != []
  {
    Slice(vaccinations, indexes[0], indexes[|indexes| - 1] + 1)
  }

  /** What lines 325-393 read without failing: five population rows with a
      positive population and five vaccination rows with both dose columns. */
  predicate ZoneDataUsable(popData: seq<Row>, vaccData: seq<Row>) {
    && ZoneRows(popData, POP_COL + 1)
    && ZoneRows(vaccData, DOSE2_COL + 1)
    && forall z :: 0 <= z < ZONE_COUNT ==> popData[z][POP_COL] > 0
  }

  /** `zone_vacc_rates`: for each zone, its first- and second-dose uptake
      passed through `round2`, the program's `round(., 2)`. */
  function ZoneVaccRates(popData: seq<Row>, vaccData: seq<Row>, round2: real -> real): (rates: seq<(real, real)>)
    requires ZoneDataUsable(popData, vaccData)
    ensures |rates| == ZONE_COUNT
  {
    seq(ZONE_COUNT, z requires 0 <= z < ZONE_COUNT =>
      (round2(VaccRate(vaccData[z][DOSE1_COL], popData[z][POP_COL])),
       round2(VaccRate(vaccData[z][DOSE2_COL], popData[z][POP_COL]))))
  }

  /** `zone_vacc_rates[:, 0]` for dose 1 and `zone_vacc_rates[:, 1]` otherwise. */
  function RateColumn(rates: seq<(real, real)>, doseNum: int): (col: seq<real>)
    ensures |col| == |rates|
  {
    seq(|rates|, k requires 0 <= k < |rates| => if doseNum == 1 then rates[k].0 else rates[k].1)
  }

  /** The rate a zone object holds for a dose: `get_d1_rate()` for dose 1, `get_d2_rate()` otherwise. */
  function DoseRate(zone: HealthZone, doseNum: int): Option<real>
    reads zone
  {
    if doseNum == 1 then zone.GetD1Rate() else zone.GetD2Rate()
  }

  /** The zone objects hold, in order, exactly the rates of one column. */
  predicate StoresColumn(zoneObjs: seq<HealthZone>, rates: seq<(real, real)>, doseNum: int)
    reads zoneObjs
  {
    && |zoneObjs| == |rates|
    && forall k :: 0 <= k < |zoneObjs| ==> DoseRate(zoneObjs[k], doseNum) == Some(RateColumn(rates, doseNum)[k])
  }

  /** The five zone objects as lines 336-343 and 363-373 leave them: zone
      `z` has number `z`, the name of zone `z`, the population of row `z` of
      `pop_data`, and the rounded rates of `zone_vacc_rates` row `z` stored
      by `set_vacc_rates`. */
  predicate ZonesHold(zoneObjs: seq<HealthZone>, popData: seq<Row>, vaccData: seq<Row>, round2: real -> real)
    requires ZoneDataUsable(popData, vaccData)
    reads zoneObjs
  {
    && |zoneObjs| == ZONE_COUNT
    && (forall z :: 0 <= z < ZONE_COUNT ==>
          && zoneObjs[z].zoneNum == z && zoneObjs[z].zoneName == ZONE_NAMES[z]
          && zoneObjs[z].population == popData[z][POP_COL])
    && StoresColumn(zoneObjs, ZoneVaccRates(popData, vaccData, round2), 1)
    && StoresColumn(zoneObjs, ZoneVaccRates(popData, vaccData, round2), 2)
  }

  /** Lines 174-198: take the column maximum, then walk the zone objects and
      stop at the first whose rate for the dose equals it (the zone the
      program prints). None when no zone holds the maximum. When the objects
      hold exactly the column, the search always succeeds and finds the first
      zone of highest rate. */
  method CalcMaxVrate(doseNum: int, zoneVaccRates: seq<(real, real)>, zoneObjs: seq<HealthZone>)
    returns (found: Option<nat>)
    requires zoneVaccRates != []
    ensures var maxRate := MaxReal(RateColumn(zoneVaccRates, doseNum));
            match found
            case Some(k) =>
              && k < |zoneObjs| && DoseRate(zoneObjs[k], doseNum) == Some(maxRate)
              && forall j :: 0 <= j < k ==> DoseRate(zoneObjs[j], doseNum) != Some(maxRate)
            case None =>
              forall j :: 0 <= j < |zoneObjs| ==> DoseRate(zoneObjs[j], doseNum) != Some(maxRate)
    ensures StoresColumn(zoneObjs, zoneVaccRates, doseNum) ==>
              found == Some(ArgMaxReal(RateColumn(zoneVaccRates, doseNum)))
  {
    var column := RateColumn(zoneVaccRates, doseNum);
    var maxRate := MaxReal(column);
    found := None;
    var i := 0;
    while i < |zoneObjs|
      invariant 0 <= i <= |zoneObjs|
      invariant forall j :: 0 <= j < i ==> DoseRate(zoneObjs[j], doseNum) != Some(maxRate)
    {
      var doseRate := if doseNum == 1 then zoneObjs[i].GetD1Rate() else zoneObjs[i].GetD2Rate();
      if doseRate == Some(maxRate) {
        found := Some(i);
        break;
      }
      i := i + 1;
    }
    if StoresColumn(zoneObjs, zoneVaccRates, doseNum) {
      var best := ArgMaxReal(column);
      assert column[best] == maxRate;
      assert found.Some?;
    }
  }

  /** Lines 336-343 and 363-373: a new HealthZone per zone of `zones_dict`,
      with the population of row `z` of `pop_data`, then each zone's rounded
      rates, computed from row `z` of the vaccination rows, stored on it and
      collected into `zone_vacc_rates`. */
  method BuildZones(popData: seq<Row>, vaccData: seq<Row>, round2: real -> real)
    returns (zoneObjs: seq<HealthZone>, zoneVaccRates: seq<(real, real)>)
    requires ZoneDataUsable(popData, vaccData)
    ensures zoneVaccRates == ZoneVaccRates(popData, vaccData, round2)
    ensures |zoneObjs| == ZONE_COUNT && Distinct(zoneObjs)
    ensures forall z :: 0 <= z < ZONE_COUNT ==>
              && fresh(zoneObjs[z])
              && zoneObjs[z].zoneNum == z && zoneObjs[z].zoneName == ZONE_NAMES[z]
              && zoneObjs[z].population == popData[z][POP_COL] && zoneObjs[z].caseNum == 0
    ensures StoresColumn(zoneObjs, zoneVaccRates, 1) && StoresColumn(zoneObjs, zoneVaccRates, 2)
    ensures ZonesHold(zoneObjs, popData, vaccData, round2)
  {
    zoneObjs := [];
    for zoneNum := 0 to ZONE_COUNT
      invariant |zoneObjs| == zoneNum && Distinct(zoneObjs)
      invariant forall z :: 0 <= z < zoneNum ==>
                  && fresh(zoneObjs[z])
                  && zoneObjs[z].zoneNum == z && zoneObjs[z].zoneName == ZONE_NAMES[z]
                  && zoneObjs[z].population == popData[z][POP_COL] && zoneObjs[z].caseNum == 0
    {
      var zone := new HealthZone(zoneNum, ZONE_NAMES[zoneNum], popData[zoneNum][POP_COL]);
      zoneObjs := zoneObjs + [zone];
    }
    ghost var spec := ZoneVaccRates(popData, vaccData, round2);
    zoneVaccRates := [];
    for i := 0 to ZONE_COUNT
      invariant zoneVaccRates == spec[..i]
      invariant forall z :: 0 <= z < ZONE_COUNT ==>
                  && zoneObjs[z].zoneNum == z && zoneObjs[z].zoneName == ZONE_NAMES[z]
                  && zoneObjs[z].population == popData[z][POP_COL] && zoneObjs[z].caseNum == 0
      invariant forall z :: 0 <= z < i ==>
                  zoneObjs[z].dose1Rate == Some(spec[z].0) && zoneObjs[z].dose2Rate == Some(spec[z].1)
    {
      var zone := zoneObjs[i];
      var dose1Rate := round2(zone.CalcVaccRate(vaccData[zone.GetZoneNum()][DOSE1_COL]));
      var dose2Rate := round2(zone.CalcVaccRate(vaccData[zone.GetZoneNum()][DOSE2_COL]));
      zoneVaccRates := zoneVaccRates + [(dose1Rate, dose2Rate)];
      zone.SetVaccRates(dose1Rate, dose2Rate);
    }
    assert spec[..ZONE_COUNT] == spec;
  }

  /** What lines 320-393 work out for the chosen location. For one zone:
      its population and unrounded uptakes (lines 325-332). For all of
      Alberta: `ab_pop`, the weighted uptakes `ab_dose_1`, `ab_dose_2` and the
      zones `calc_max_vrate` reports. Both carry `dose_1_arr` and `dose_2_arr`,
      the rounded per-zone rates the bar chart shows. */
  datatype VaccinationReport = VaccinationReport(
    population: int,
    dose1: real,
    dose2: real,
    dose1Rates: seq<real>,
    dose2Rates: seq<real>,
    maxDose1Zone: Option<nat>,
    maxDose2Zone: Option<nat>)

  /** The report of lines 320-393 for `pop_data`, `vacc_data` and a location. */
  function VaccinationSpec(popData: seq<Row>, vaccData: seq<Row>, location: int, round2: real -> real): VaccinationReport
    requires ZoneDataUsable(popData, vaccData) && 0 <= location
  {
    var rates := ZoneVaccRates(popData, vaccData, round2);
    var dose1Rates, dose2Rates := RateColumn(rates, 1), RateColumn(rates, 2);
    if location < ZONE_COUNT then
      var zonePop := popData[location][POP_COL];
      VaccinationReport(zonePop, VaccRate(vaccData[location][DOSE1_COL], zonePop),
                        VaccRate(vaccData[location][DOSE2_COL], zonePop), dose1Rates, dose2Rates, None, None)
    else
      var pops := ZonePopulations(popData);
      SumIntPositive(pops);
      var weights := Weights(pops, SumInt(pops));
      VaccinationReport(SumInt(pops), WeightedRate(weights, dose1Rates), WeightedRate(weights, dose2Rates),
                        dose1Rates, dose2Rates, Some(ArgMaxReal(dose1Rates)), Some(ArgMaxReal(dose2Rates)))
  }

  /** The report for all of Alberta, spelled out from its parts. */
  lemma AlbertaSpec(popData: seq<Row>, vaccData: seq<Row>, round2: real -> real)
    requires ZoneDataUsable(popData, vaccData)
    ensures var pops := ZonePopulations(popData);
            var rates := ZoneVaccRates(popData, vaccData, round2);
            var dose1Rates, dose2Rates := RateColumn(rates, 1), RateColumn(rates, 2);
            && SumInt(pops) > 0
            && VaccinationSpec(popData, vaccData, ALL_ALBERTA, round2)
               == VaccinationReport(SumInt(pops), WeightedRate(Weights(pops, SumInt(pops)), dose1Rates),
                                    WeightedRate(Weights(pops, SumInt(pops)), dose2Rates), dose1Rates, dose2Rates,
                                    Some(ArgMaxReal(dose1Rates)), Some(ArgMaxReal(dose2Rates)))
  {
    SumIntPositive(ZonePopulations(popData));
  }

  /** Lines 323-353: the figures for one zone, then the rates of every zone. */
  method SingleZoneStats(popData: seq<Row>, vaccData: seq<Row>, location: int, round2: real -> real)
    returns (report: VaccinationReport, zoneObjs: seq<HealthZone>)
    requires 0 <= location < ZONE_COUNT && ZoneDataUsable(popData, vaccData)
    ensures report == VaccinationSpec(popData, vaccData, location, round2)
    ensures |zoneObjs| == ZONE_COUNT && Distinct(zoneObjs)
    ensures forall z :: 0 <= z < ZONE_COUNT ==> fresh(zoneObjs[z]) && zoneObjs[z].caseNum == 0
    ensures ZonesHold(zoneObjs, popData, vaccData, round2)
  {
    var zonePop := popData[location][POP_COL];
    var zone1 := new HealthZone(location, ZONE_NAMES[location], zonePop);
    var dose1 := zone1.CalcVaccRate(vaccData[location][DOSE1_COL]);
    var dose2 := zone1.CalcVaccRate(vaccData[location][DOSE2_COL]);
    var zoneVaccRates;
    zoneObjs, zoneVaccRates := BuildZones(popData, vaccData, round2);
    report := VaccinationReport(zonePop, dose1, dose2, RateColumn(zoneVaccRates, 1), RateColumn(zoneVaccRates, 2), None, None);
  }

  /** Lines 354-393: Alberta's population, every zone's rates, the zones of
      highest uptake and the population-weighted uptakes. */
  method AlbertaStats(popData: seq<Row>, vaccData: seq<Row>, round2: real -> real)
    returns (report: VaccinationReport, zoneObjs: seq<HealthZone>)
    requires ZoneDataUsable(popData, vaccData)
    ensures report == VaccinationSpec(popData, vaccData, ALL_ALBERTA, round2)
    ensures |zoneObjs| == ZONE_COUNT && Distinct(zoneObjs)
    ensures forall z :: 0 <= z < ZONE_COUNT ==> fresh(zoneObjs[z]) && zoneObjs[z].caseNum == 0
    ensures ZonesHold(zoneObjs, popData, vaccData, round2)
  {
    AlbertaSpec(popData, vaccData, round2);
    var abPop := AlbertaPopulation(popData);
    var zoneVaccRates;
    zoneObjs, zoneVaccRates := BuildZones(popData, vaccData, round2);
    var maxDose1 := CalcMaxVrate(1, zoneVaccRates, zoneObjs);
    var maxDose2 := CalcMaxVrate(2, zoneVaccRates, zoneObjs);
    var dose1Arr, dose2Arr := RateColumn(zoneVaccRates, 1), RateColumn(zoneVaccRates, 2);
    var popWeights := Weights(ZonePopulations(popData), abPop);
    report := VaccinationReport(abPop, WeightedRate(popWeights, dose1Arr), WeightedRate(popWeights, dose2Arr),
                                dose1Arr, dose2Arr, maxDose1, maxDose2);
  }

  /** Lines 320-393 as the program runs them, returning the zone objects for
      the case tally that follows. */
  method ZoneStats(popData: seq<Row>, indexes: seq<nat>, vaccinations: Table, location: int, round2: real -> real)
    returns (report: VaccinationReport, zoneObjs: seq<HealthZone>)
    requires indexes != [] && 0 <= location <= ALL_ALBERTA
    requires ZoneDataUsable(popData, VaccinationSlice(vaccinations, indexes))
    ensures report == VaccinationSpec(popData, VaccinationSlice(vaccinations, indexes), location, round2)
    ensures |zoneObjs| == ZONE_COUNT && Distinct(zoneObjs)
    ensures forall z :: 0 <= z < ZONE_COUNT ==> fresh(zoneObjs[z]) && zoneObjs[z].caseNum == 0
    ensures ZonesHold(zoneObjs, popData, VaccinationSlice(vaccinations, indexes), round2)
  {
    var vaccData := VaccinationSlice(vaccinations, indexes);
    if location < ZONE_COUNT {
      report, zoneObjs := SingleZoneStats(popData, vaccData, location, round2);
    } else {
      report, zoneObjs := AlbertaStats(popData, vaccData, round2);
    }
  }

  /** For all of Alberta: the population is the positive sum of the zone
      populations; each reported max-rate zone is the first zone whose rate
      is at least every zone's; each weighted uptake lies between the lowest
      and the highest zone rate. */
  lemma {:induction false} AlbertaReportFacts(popData: seq<Row>, vaccData: seq<Row>, round2: real -> real)
    requires ZoneDataUsable(popData, vaccData)
    ensures var r := VaccinationSpec(popData, vaccData, ALL_ALBERTA, round2);
            && r.population == SumInt(ZonePopulations(popData)) > 0
            && |r.dose1Rates| == |r.dose2Rates| == ZONE_COUNT
            && r.maxDose1Zone.Some? && r.maxDose1Zone.value < ZONE_COUNT
            && (forall j :: 0 <= j < ZONE_COUNT ==> r.dose1Rates[j] <= r.dose1Rates[r.maxDose1Zone.value])
            && (forall j :: 0 <= j < r.maxDose1Zone.value ==> r.dose1Rates[j] < r.dose1Rates[r.maxDose1Zone.value])
            && r.maxDose2Zone.Some? && r.maxDose2Zone.value < ZONE_COUNT
            && (forall j :: 0 <= j < ZONE_COUNT ==> r.dose2Rates[j] <= r.dose2Rates[r.maxDose2Zone.value])
            && (forall j :: 0 <= j < r.maxDose2Zone.value ==> r.dose2Rates[j] < r.dose2Rates[r.maxDose2Zone.value])
            && MinReal(r.dose1Rates) <= r.dose1 <= MaxReal(r.dose1Rates)
            && MinReal(r.dose2Rates) <= r.dose2 <= MaxReal(r.dose2Rates)
  {
    var r := VaccinationSpec(popData, vaccData, ALL_ALBERTA, round2);
    var pops := ZonePopulations(popData);
    SumIntPositive(pops);
    RegionalRateWithinZoneRates(pops, r.dose1Rates, MinReal(r.dose1Rates), MaxReal(r.dose1Rates));
    RegionalRateWithinZoneRates(pops, r.dose2Rates, MinReal(r.dose2Rates), MaxReal(r.dose2Rates));
  }
}
