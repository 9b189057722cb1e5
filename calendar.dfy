/**
 * Which dates the program accepts (covid_stats.py:150-172 and 213-222).
 *
 * The vaccination table is newest first: its first row carries the most
 * recent date and its last row the earliest. The months on offer run from
 * the earliest month to the newest; the newest month ends on the newest day,
 * and the earliest month starts on the earliest day.
 */
module Calendar {
  import opened Tables

  /** `month_lengths` (line 215): the days of each month of 2021. */
  const MONTH_LENGTHS: map<int, int> :=
    map[1 := 31, 2 := 28, 3 := 31, 4 := 30, 5 := 31, 6 := 30, 7 := 31, 8 := 31, 9 := 30, 10 := 31, 11 := 30, 12 := 31]

  /** The days of month `m` of a year that is not a leap year, written out
      by the rule rather than by table. */
  function CalendarDays(m: int): int {
    if m == 2 then 28 else if m == 4 || m == 6 || m == 9 || m == 11 then 30 else 31
  }

  /** The month of the newest and the earliest vaccination row. */
  function NewestMonth(vaccinations: Table): int
    requires vaccinations != [] && Wide(vaccinations, DAY_COL + 1)
  {
    vaccinations[0][MONTH_COL]
  }

  function EarliestMonth(vaccinations: Table): int
    requires vaccinations != [] && Wide(vaccinations, DAY_COL + 1)
  {
    vaccinations[|vaccinations| - 1][MONTH_COL]
  }

  /** Line 213: `valid_months`, every month from the earliest row's to the
      newest row's, in ascending order, so that `valid_months[0]` is the
      earliest month. */
  function ValidMonths(vaccinations: Table): (months: seq<int>)
    requires vaccinations != [] && Wide(vaccinations, DAY_COL + 1)
    ensures forall m :: m in months <==> EarliestMonth(vaccinations) <= m <= NewestMonth(vaccinations)
    ensures months != [] ==> months[0] == EarliestMonth(vaccinations)
  {
    var lo, hi := EarliestMonth(vaccinations), NewestMonth(vaccinations);
    if lo <= hi then
      var months := seq(hi - lo + 1, k requires 0 <= k <= hi - lo => lo + k);
      forall m | lo <= m <= hi
        ensures m in months
      {
        assert months[m - lo] == m;
      }
      months
    else []
  }

  /** `months_dict[m]` exists for every valid month (line 222 raises
      KeyError otherwise): each is a calendar month or the newest month. */
  predicate MonthsKnown(vaccinations: Table)
    requires vaccinations != [] && Wide(vaccinations, DAY_COL + 1)
  {
    forall m :: m in ValidMonths(vaccinations) ==> m in MONTH_LENGTHS || m == NewestMonth(vaccinations)
  }

  /** Lines 219-222: the newest month's length becomes the newest row's day,
      and the table is restricted to the valid months. */
  function MonthsDict(vaccinations: Table): (monthsDict: map<int, int>)
    requires vaccinations != [] && Wide(vaccinations, DAY_COL + 1) && MonthsKnown(vaccinations)
    ensures forall m :: m in monthsDict <==> m in ValidMonths(vaccinations)
  {
    var lengths := MONTH_LENGTHS[NewestMonth(vaccinations) := vaccinations[0][DAY_COL]];
    map m | m in ValidMonths(vaccinations) :: lengths[m]
  }

  /** Lines 139 and 150-164: the accept test of `get_date_input`. The month
      must be a valid month; the day must lie between `min_day`, the earliest
      row's day in the first valid month and 1 otherwise, and `max_day`, the
      month's entry in `months_dict`. */
  predicate AcceptsDate(validMonths: seq<int>, monthsDict: map<int, int>, vaccinations: Table, month: int, day: int)
    requires vaccinations != [] && Wide(vaccinations, DAY_COL + 1)
    requires forall m :: m in validMonths ==> m in monthsDict
  {
    && month in validMonths
    && var minDay := if month == validMonths[0] then vaccinations[|vaccinations| - 1][DAY_COL] else 1;
       var maxDay := monthsDict[month];
       minDay <= day <= maxDay
  }

  /** The date the program accepts for a vaccination table. */
  predicate DateAccepted(vaccinations: Table, month: int, day: int)
    requires vaccinations != [] && Wide(vaccinations, DAY_COL + 1) && MonthsKnown(vaccinations)
  {
    AcceptsDate(ValidMonths(vaccinations), MonthsDict(vaccinations), vaccinations, month, day)
  }

  /** A date is accepted exactly when its month lies between the earliest
      and the newest month, and its day lies between the earliest row's day
      (in the earliest month; 1 in the others) and the newest row's day (in
      the newest month; the calendar length, February 28, in the others). */
  lemma AcceptsDateIff(vaccinations: Table, month: int, day: int)
    requires vaccinations != [] && Wide(vaccinations, DAY_COL + 1) && MonthsKnown(vaccinations)
    ensures DateAccepted(vaccinations, month, day) <==>
              && EarliestMonth(vaccinations) <= month <= NewestMonth(vaccinations)
              && (if month == EarliestMonth(vaccinations) then vaccinations[|vaccinations| - 1][DAY_COL] else 1) <= day
              && day <= (if month == NewestMonth(vaccinations) then vaccinations[0][DAY_COL] else CalendarDays(month))
  {
    var months := ValidMonths(vaccinations);
    if month in months {
      assert months[0] == EarliestMonth(vaccinations);
      if month != NewestMonth(vaccinations) {
        assert month in MONTH_LENGTHS;
        assert MONTH_LENGTHS[month] == CalendarDays(month);
      }
    }
  }
}
