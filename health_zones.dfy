/**
 * The HealthZone class of covid_stats.py:14-101: one of Alberta's five
 * health zones, holding its population, its case count for the chosen date
 * and its two vaccine-dose uptake rates.
 */
module HealthZones {
  import opened Wrappers

  /** The zones of `zones_dict` (line 216), numbered 0 to 4. */
  const ZONE_COUNT: nat := 5
  const ZONE_NAMES: seq<string> := ["Calgary Zone", "Central Zone", "Edmonton Zone", "North Zone", "South Zone"]

  /** The percentage of a population of `population` that `doses` doses
      cover (line 44): the rate times the population is a hundred times the
      doses, so it is 0 exactly for no doses, non-negative for non-negative
      doses and at most 100 when the doses do not exceed the population. */
  function VaccRate(doses: int, population: int): (rate: real)
    requires population > 0
    ensures rate * population as real == doses as real * 100.0
    ensures rate == 0.0 <==> doses == 0
    ensures 0 <= doses ==> 0.0 <= rate
    ensures doses <= population ==> rate <= 100.0
  {
    (doses as real / population as real) * 100.0
  }

  class HealthZone {
    var zoneNum: int
    var zoneName: string
    var population: int
    var caseNum: int
    /** None until `SetVaccRates` is called (Python's `None`). */
    var dose1Rate: Option<real>
    var dose2Rate: Option<real>

    /** A new zone has no cases and no rates yet. */
    constructor (zoneNum: int, zoneName: string, population: int)
      ensures this.zoneNum == zoneNum && this.zoneName == zoneName && this.population == population
      ensures caseNum == 0 && dose1Rate == None && dose2Rate == None
    {
      this.zoneNum := zoneNum;
      this.zoneName := zoneName;
      this.population := population;
      caseNum := 0;
      dose1Rate := None;
      dose2Rate := None;
    }

    /** `calc_vacc_rate`: the uptake that `doses` doses mean in this zone,
        scaled so that the rate times the zone's population is a hundred
        times the doses. */
    function CalcVaccRate(doses: int): (rate: real)
      reads this
      requires population > 0
      ensures rate * population as real == doses as real * 100.0
    {
      VaccRate(doses, population)
    }

    /** Record one more case in the zone; no other field changes. */
    method AddCase()
      modifies this`caseNum
      ensures caseNum == old(caseNum) + 1
    {
      caseNum := caseNum + 1;
    }

    /** Store both uptake rates; no other field changes. */
    method SetVaccRates(dose1: real, dose2: real)
      modifies this`dose1Rate, this`dose2Rate
      ensures dose1Rate == Some(dose1) && dose2Rate == Some(dose2)
    {
      dose1Rate := Some(dose1);
      dose2Rate := Some(dose2);
    }

    function GetZoneName(): string
      reads this
    {
      zoneName
    }

    function GetZoneNum(): int
      reads this
    {
      zoneNum
    }

    function GetD1Rate(): Option<real>
      reads this
    {
      dose1Rate
    }

    function GetD2Rate(): Option<real>
      reads this
    {
      dose2Rate
    }

    function GetCaseNum(): int
      reads this
    {
      caseNum
    }
  }
}
