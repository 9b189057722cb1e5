# Alberta COVID-19 statistics for a date, in Dafny

This project models the computation at the heart of `covid_stats.py`. For a
date in 2021 chosen by the user and a location, the program reports Alberta's
vaccine uptake and COVID-19 case figures. The location is one of the five
health zones (0-4) or all of Alberta (5). The model covers:

- **Population matching** (`PopulationMatch`, `Tables`). numpy's
  `np.where(populations == month)[0]` is modelled exactly: it lists a row once
  for every cell equal to the month, in row-major order. The filter keeps the
  hits whose month and day columns equal the query. The deduplication keeps
  the first hit and then every hit whose population differs from the
  previously scanned hit's. So a row on the date is kept iff no row above it is
  on the date or its population differs from that of the nearest row above it
  on the date; numpy's repeated reports of a row change nothing. The result is
  `Option<Match>`, and `None` is the "no data for that date" branch after
  which the program asks for another date.
- **The `HealthZone` class** (`HealthZones`). It is a Dafny class with the same
  fields. `add_case` and `set_vacc_rates` change only their own fields.
- **Vaccination figures** (`VaccinationStats`, `Rates`). These cover:
  - the vaccination slice taken by the population row indexes;
  - per-zone uptake rates, stored on a fresh `HealthZone` per zone;
  - `calc_max_vrate`, the search loop that finds the zone holding the column
    maximum;
  - Alberta's population and its population-weighted uptake.
- **Case figures** (`Cases`). These cover:
  - the same date filter on the case table;
  - the `set` that removes repeated numpy hits while keeping distinct rows
    with identical content;
  - the tally of `add_case` calls on the zone objects;
  - `case_count_list.index(max_count)`, the first zone with the most cases.
- **The accepted dates** (`Calendar`). These are the valid months, the
  month-lengths table with the newest month cut at the newest day, and the
  day-range test of `get_date_input`.
- **One pass of the statistics** (`Stats.Query`). It composes the steps above.

Numbers are exact: table cells are `int` and rates are `real`. Python's
`round(x, 2)` is the parameter `round2`, so every statement about stored
rates holds whatever rounding is used.

Facts about the code that the model keeps as they are:

- Duplicate population rows are detected by an equal population (column 3)
  in consecutive hits. Two zones with the same population whose rows come one
  after the other among the date's rows are therefore merged; equal
  populations further apart are both kept.
- Zone `z` reads row `z` of the matched population rows and of the
  vaccination slice, by position. Nothing checks that the row belongs to
  zone `z`.
- The Alberta-wide rate weights the rounded per-zone rates (lines 368-373
  and 391-393), not the unrounded ones.
- The comment at covid_stats.py:151 calls `valid_months[0]` the most recent
  month. The code makes it the earliest month, and `Calendar.AcceptsDateIff`
  states what the code does.

## Model

| member | source | states |
|---|---|---|
| `Tables.WhereRows` | covid_stats.py:284 | numpy's row hits are row indexes of the table in non-decreasing order |
| `Tables.WhereRowsCount` | covid_stats.py:284 | row `x` is reported exactly as many times as it has cells equal to the month, so it is reported iff one of its cells equals the month |
| `Tables.DateHitsMembers` | covid_stats.py:289-292 | the filter keeps exactly the hits whose month and day columns equal the query |
| `Tables.DateHitsOrdered` | covid_stats.py:289-292 | on non-decreasing hits the kept hits stay non-decreasing |
| `Tables.DateHitsOfWhere` | covid_stats.py:284-292 | filtering numpy's month hits finds every row on the date and nothing else |
| `Tables.FilterOnDate` | covid_stats.py:289-292 | the loop builds `temp_indexes` as the date filter of the hits and `temp_data` as the rows at those indexes |
| `Tables.CollectDateHits` | covid_stats.py:284-292 | the loop builds `temp_indexes` as the date filter of numpy's hits and `temp_data` as the rows at those indexes |
| `PopulationMatch.DropRepeats` | covid_stats.py:298-308 | the dedup as written keeps the first hit and only hits of the table |
| `PopulationMatch.CollapseRuns` | covid_stats.py:301-308 | reference dedup comparing with the last kept row: no two adjacent kept rows share a population |
| `PopulationMatch.DropRepeatsIsCollapseRuns` | covid_stats.py:301-308 | comparing with the previously scanned hit equals comparing with the last kept row |
| `PopulationMatch.KeptPopulationsDiffer` | covid_stats.py:303-306 | no two adjacent kept hits share the population value |
| `PopulationMatch.DropRepeatsKeepsDistinct` | covid_stats.py:301-308 | hits with no adjacent equal populations pass the dedup unchanged |
| `PopulationMatch.DropRepeatsIdempotent` | covid_stats.py:301-308 | running the dedup twice gives what running it once gives |
| `PopulationMatch.DropRepeatsIncreasing` | covid_stats.py:284-308 | on numpy's hits the kept indexes strictly increase, so repeated hits of one row never survive |
| `PopulationMatch.MatchNoDataIff` | covid_stats.py:297-317 | the no-data branch is taken iff no row of the population table is on the date |
| `PopulationMatch.MatchRowsOnDate` | covid_stats.py:289-306 | every kept row is the table row at its index and is on the queried date |
| `PopulationMatch.MatchIndexesIncrease` | covid_stats.py:289-306 | the kept indexes strictly increase |
| `PopulationMatch.MatchFirstRowKept` | covid_stats.py:289-298 | the first kept index is the first row of the table on the date |
| `PopulationMatch.MatchAdjacentPopulationsDiffer` | covid_stats.py:301-306 | adjacent rows of `pop_data` have different populations |
| `PopulationMatch.DropRepeatedPopulations` | covid_stats.py:298-308 | the loop, with its no-op `i += 1`, computes the dedup as written and the rows at the kept indexes |
| `PopulationMatch.DropRepeatsKeeps` | covid_stats.py:301-306 | the hit at a kept position (the first, or one whose population differs from the hit before it) survives the dedup |
| `PopulationMatch.DropRepeatsWitness` | covid_stats.py:301-306 | every surviving row is the hit at a kept position |
| `PopulationMatch.PrevOnDate` | covid_stats.py:289-306 | reference: the greatest row above a given row that is on the date, or none when no row above it is |
| `PopulationMatch.DropRepeatsFirstReport` | covid_stats.py:284-308 | on numpy's hits a row survives iff its first report is the first hit or follows a hit of different population; its repeated reports never decide anything |
| `PopulationMatch.FirstReportFollowsPrev` | covid_stats.py:284-292 | on numpy's date hits the hit just before a row's first report is the nearest row above it on the date, and there is none iff the row is reported first |
| `PopulationMatch.MatchKeepsRow` | covid_stats.py:284-308 | a row on the date is kept iff no row above it is on the date or its population differs from that of the nearest row above it on the date |
| `PopulationMatch.MatchPopulation` | covid_stats.py:281-317 | returns the specified match, and None iff no population row is on the date |
| `Sequences.IndexOf` | covid_stats.py:439 | `list.index` returns the first position holding the value |
| `Sequences.MaxReal` | covid_stats.py:189 | `np.max` of the rate column is an element that no element exceeds |
| `Sequences.MaxInt` | covid_stats.py:438 | `np.max` of the case counts is an element that no element exceeds |
| `Sequences.ArgMaxInt` | covid_stats.py:436-439 | the max-case zone is a zone whose count is at least every zone's, and every earlier zone's count is strictly smaller |
| `HealthZones.VaccRate` | covid_stats.py:44 | the rate times the population is 100 times the doses; it is 0 iff there are no doses, non-negative for non-negative doses, and at most 100 when doses do not exceed the population |
| `HealthZones.HealthZone.constructor` | covid_stats.py:26-32 | a new zone has the given number, name and population, no cases, and no rates |
| `HealthZones.HealthZone.CalcVaccRate` | covid_stats.py:35-45 | the zone's rate for a dose count, times its population, is 100 times the doses |
| `HealthZones.HealthZone.AddCase` | covid_stats.py:47-49 | `case_num` rises by exactly one and no other field is in the frame |
| `HealthZones.HealthZone.SetVaccRates` | covid_stats.py:51-61 | both rates are set and only the two rate fields are in the frame |
| `Rates.ZonePopulations` | covid_stats.py:356-358 | the five zone populations are column 3 of rows 0-4 of `pop_data` |
| `Rates.AlbertaPopulation` | covid_stats.py:356-358 | `ab_pop` is the sum of the five zone populations, positive when each is |
| `Rates.Weights` | covid_stats.py:391 | each weight times `ab_pop` is the zone's population |
| `Rates.WeightsSumToOne` | covid_stats.py:391 | with `ab_pop` the total population, the weights sum to 1 |
| `Rates.WeightedTimesTotal` | covid_stats.py:391-393 | the weighted rate times `ab_pop` is the population-scaled sum of the zone rates |
| `Rates.UniformRegionalRate` | covid_stats.py:391-393 | if every zone has rate R, the Alberta-wide rate is R |
| `Rates.RegionalRateIsOverallRate` | covid_stats.py:391-393 | with exact zone rates, the weighted rate times all people is 100 times all doses |
| `Rates.RegionalRateWithinZoneRates` | covid_stats.py:391-393 | the weighted rate lies between any lower and upper bound of the zone rates |
| `VaccinationStats.Slice` | covid_stats.py:320 | Python's clamped slice: its length and that element k is element lo+k |
| `VaccinationStats.CalcMaxVrate` | covid_stats.py:174-198 | returns the first zone whose stored rate equals the column maximum, or None when none does; when the zones store the column, it is the first zone of highest rate |
| `VaccinationStats.BuildZones` | covid_stats.py:336-343 | five distinct fresh zones with number, name and population from row z, no cases, and the rounded rates stored, equal to `zone_vacc_rates` (`ZonesHold`) |
| `VaccinationStats.SingleZoneStats` | covid_stats.py:323-353 | the report for one zone is its population and unrounded uptakes with every zone's rounded rates, and the five zone objects are fresh with no cases, with zone `z`'s number, name, population from row `z` and rounded rates stored (`ZonesHold`) |
| `VaccinationStats.AlbertaStats` | covid_stats.py:354-393 | the report for all of Alberta is the total population, the weighted uptakes of the rounded rates and the `calc_max_vrate` zones, and the five zone objects are fresh with no cases, with zone `z`'s number, name, population from row `z` and rounded rates stored (`ZonesHold`) |
| `VaccinationStats.ZoneStats` | covid_stats.py:320-393 | the report for a zone or all of Alberta equals the specification on the slice, and the five zone objects are fresh with no cases, with zone `z`'s number, name, population and rounded rates stored (`ZonesHold`) |
| `VaccinationStats.AlbertaReportFacts` | covid_stats.py:356-393 | for all of Alberta: population is the positive zone total, each max zone is the first zone of highest rate, and each uptake lies between the lowest and highest zone rate |
| `Cases.ZoneOf` | covid_stats.py:432-433 | the zone object index is below 5 and congruent to the zone column, as Python's negative indexing makes it |
| `Cases.CaseCountsSum` | covid_stats.py:431-436 | the per-zone case counts sum to `len(ab_covid_data)` |
| `Cases.CaseSetSize` | covid_stats.py:420-425 | the set holds one index per row on the date |
| `Cases.IdenticalRowsCountTwice` | covid_stats.py:420-425 | two different rows on the date with identical content are both in the set of case indexes, so both are listed and counted |
| `Cases.CountZoneOfDistinct` | covid_stats.py:431-433 | over duplicate-free indexes, a zone's tally is the number of indexes whose row names it |
| `Cases.CaseCountsAreZoneSets` | covid_stats.py:420-433 | whatever order the set yields, each zone's count is the number of rows on the date in that zone |
| `Cases.ListSetRows` | covid_stats.py:423-425 | lists each index of the set exactly once, with its row |
| `Cases.CollectCaseRows` | covid_stats.py:410-426 | each row on the date is listed exactly once, however often numpy reported it |
| `Cases.TallyCases` | covid_stats.py:431-433 | each zone's `case_num` rises by its number of cases and no other field changes |
| `Cases.ReadCaseCounts` | covid_stats.py:436 | `case_count_list` holds each zone's `case_num` in zone order |
| `Cases.CaseStats` | covid_stats.py:408-439 | the case rows, the per-zone counts held by the zone objects, and the first zone with the most cases; each zone's number, name, population and rates stay as they were |
| `Calendar.ValidMonths` | covid_stats.py:213 | a month is valid iff it lies between the earliest and the newest row's month, and the first valid month is the earliest |
| `Calendar.MonthsDict` | covid_stats.py:219-222 | `months_dict` has exactly the valid months as keys |
| `Calendar.AcceptsDateIff` | covid_stats.py:150-164 | a date is accepted iff its month is valid and its day lies between the earliest row's day (earliest month; else 1) and the newest row's day (newest month; else the calendar length) |
| `Stats.Query` | covid_stats.py:280-439 | no data iff no population row is on the date; otherwise the vaccination report matches its specification and the case report lists the index of each row on the date once, with the table row at that index, counts per zone and picks the first zone with the most cases; the zone objects keep their number, name, population and rounded rates and hold the zone's case count |

## Left out

- Keyboard input and its retry loops (lines 134-171 and 232-271). Only the accept test and the location encoding (0-4 a zone, 5 all of Alberta) are modelled. The re-prompt after "no data" is the `NoDataForDate` result.
- CSV loading with `np.genfromtxt` (lines 208-210). The tables are taken as already-parsed rows of integers.
- All printing, `print_date`, the `{:.2f}` display and the final `round(ab_dose, 2)` (line 394-395). These are presentation only.
- Matplotlib plotting (lines 397-405, 441-448).
- Floating-point arithmetic. Rates are exact reals, and `round(x, 2)` is the abstract parameter `round2`. The positive-population precondition replaces numpy's inf/nan on a zero population.
- Python's negative list indexes for `pop_data[location]` and the vaccination rows are not needed. The location is 0-5 and zones are 0-4. Negative zone numbers in the case table are modelled (`Cases.ZoneOf`).
- The iteration order of a Python `set` is not modelled. `Cases.ListSetRows` picks any order, and every counted property is proved for all orders.
- `HealthZones.HealthZone.GetZoneName`, `GetZoneNum`, `GetD1Rate`, `GetD2Rate`, `GetCaseNum` read one field each. They are modelled as plain field reads without a contract of their own.
- Crashes of the program are not modelled as results. These are an `IndexError` when fewer than five population or vaccination rows match, a `KeyError` for a valid month outside the calendar, and an `IndexError` for a zone number outside -5..4. They are preconditions (`ZoneDataUsable`, `MonthsKnown`, `CaseDataUsable`).
- `Cases.CaseStats` requires zone objects with no cases yet. That is the state the program passes (the zones are created fresh at lines 336 or 363), so it does not state the tally on objects with earlier cases. `Cases.TallyCases` states it for any starting counts.
