/**
 * Alberta-wide figures of covid_stats.py:356-358 and 391-393: the population
 * of all five zones, the population weights `pop_z / ab_pop`, and the
 * weighted uptake `np.sum(pop_weights * dose_arr)`.
 */
module Rates {
  import opened Tables
  import opened Sequences
  import opened HealthZones
  import opened PopulationMatch

  /** The first `ZONE_COUNT` rows exist and have at least `width` columns:
      the program reads zone `z`'s data from row `z`, by position. */
  predicate ZoneRows(rows: seq<Row>, width: nat) {
    ZONE_COUNT <= |rows| && forall z :: 0 <= z < ZONE_COUNT ==> width <= |rows[z]|
  }

  /** `pop_data[z][3]` for the five zones. */
  function ZonePopulations(popData: seq<Row>): (pops: seq<int>)
    requires ZoneRows(popData, POP_COL + 1)
    ensures |pops| == ZONE_COUNT
    ensures forall z :: 0 <= z < ZONE_COUNT ==> pops[z] == popData[z][POP_COL]
  {
    seq(ZONE_COUNT, z requires 0 <= z < ZONE_COUNT => popData[z][POP_COL])
  }

  /** Lines 356-358: `ab_pop`, the population of all five zones; positive
      when every zone's population is. */
  method AlbertaPopulation(popData: seq<Row>) returns (abPop: int)
    requires ZoneRows(popData, POP_COL + 1)
    ensures abPop == SumInt(ZonePopulations(popData))
    ensures (forall z :: 0 <= z < ZONE_COUNT ==> popData[z][POP_COL] > 0) ==> abPop > 0
  {
    ghost var pops := ZonePopulations(popData);
    abPop := 0;
    for i := 0 to ZONE_COUNT
      invariant abPop == SumInt(pops[..i])
    {
      assert pops[..i + 1][..i] == pops[..i];
      abPop := abPop + popData[i][POP_COL];
    }
    assert pops[..ZONE_COUNT] == pops;
    if forall z :: 0 <= z < ZONE_COUNT ==> popData[z][POP_COL] > 0 {
      SumIntPositive(pops);
    }
  }

  /** Line 391: `pop_weights`, each zone's share `pop_z / ab_pop` of the total. */
  function Weights(pops: seq<int>, abPop: int): (w: seq<real>)
    requires abPop != 0
    ensures |w| == |pops|
    ensures forall z :: 0 <= z < |pops| ==> w[z] * abPop as real == pops[z] as real
  {
    seq(|pops|, z requires 0 <= z < |pops| => pops[z] as real / abPop as real)
  }

  /** Lines 392-393: `np.sum(pop_weights * dose_arr)`, the element-wise
      product of weights and rates, summed. */
  function WeightedRate(weights: seq<real>, rates: seq<real>): real
    requires |weights| == |rates|
  {
    if weights == [] then 0.0
    else
      var n := |weights| - 1;
      WeightedRate(weights[..n], rates[..n]) + weights[n] * rates[n]
  }

  lemma {:induction false} WeightsPrefix(pops: seq<int>, abPop: int, n: nat)
    requires abPop != 0 && n <= |pops|
    ensures Weights(pops, abPop)[..n] == Weights(pops[..n], abPop)
  {
  }

  lemma {:induction false} WeightsSum(pops: seq<int>, abPop: int)
    requires abPop != 0
    ensures SumReal(Weights(pops, abPop)) == SumInt(pops) as real / abPop as real
  {
    if pops != [] {
      var n := |pops| - 1;
      WeightsSum(pops[..n], abPop);
      WeightsPrefix(pops, abPop, n);
      var front, last, total := SumInt(pops[..n]) as real, pops[n] as real, abPop as real;
      assert SumReal(Weights(pops, abPop)) == front / total + last / total;
      assert front / total + last / total == (front + last) / total;
    }
  }

  /** With `ab_pop` the sum of the populations, the weights sum to 1. */
  lemma {:induction false} WeightsSumToOne(pops: seq<int>)
    requires SumInt(pops) != 0
    ensures SumReal(Weights(pops, SumInt(pops))) == 1.0
  {
    WeightsSum(pops, SumInt(pops));
    var total := SumInt(pops) as real;
    assert total / total == 1.0;
  }

  /** Each zone's rate scaled by its population, summed. */
  function ScaledSum(pops: seq<int>, rates: seq<real>): real
    requires |pops| == |rates|
  {
    if pops == [] then 0.0
    else
      var n := |pops| - 1;
      ScaledSum(pops[..n], rates[..n]) + pops[n] as real * rates[n]
  }

  /** The weighted rate times `ab_pop` is the population-scaled sum of rates. */
  lemma {:induction false} WeightedTimesTotal(pops: seq<int>, rates: seq<real>, abPop: int)
    requires abPop != 0 && |pops| == |rates|
    ensures WeightedRate(Weights(pops, abPop), rates) * abPop as real == ScaledSum(pops, rates)
  {
    if pops != [] {
      var n := |pops| - 1;
      WeightedTimesTotal(pops[..n], rates[..n], abPop);
      WeightsPrefix(pops, abPop, n);
      var w := Weights(pops, abPop);
      var total := abPop as real;
      var front := WeightedRate(w[..n], rates[..n]);
      calc {
        WeightedRate(w, rates) * total;
        (front + w[n] * rates[n]) * total;
        front * total + (w[n] * total) * rates[n];
        ScaledSum(pops[..n], rates[..n]) + pops[n] as real * rates[n];
      }
    }
  }

  /** Multiplying by a positive total preserves and reflects order. */
  lemma DivideBounds(x: real, total: real, lo: real, hi: real)
    requires total > 0.0 && lo * total <= x * total <= hi * total
    ensures lo <= x <= hi
  {
  }

  lemma CancelFactor(x: real, y: real, total: real)
    requires total != 0.0 && x * total == y * total
    ensures x == y
  {
  }

  lemma ScaleBetween(p: real, lo: real, r: real, hi: real)
    requires 0.0 <= p && lo <= r <= hi
    ensures p * lo <= p * r <= p * hi
  {
  }

  lemma {:induction false} SumIntSplit(s: seq<int>)
    requires s != []
    ensures SumInt(s) as real == SumInt(s[..|s| - 1]) as real + s[|s| - 1] as real
  {
  }

  lemma {:induction false} ScaledUniform(pops: seq<int>, rates: seq<real>, r: real)
    requires |pops| == |rates|
    requires forall z :: 0 <= z < |rates| ==> rates[z] == r
    ensures ScaledSum(pops, rates) == r * SumInt(pops) as real
  {
    if pops != [] {
      var n := |pops| - 1;
      ScaledUniform(pops[..n], rates[..n], r);
      SumIntSplit(pops);
      var front, p := SumInt(pops[..n]) as real, pops[n] as real;
      assert r * (front + p) == r * front + p * r;
    }
  }

  /** When every zone has the same rate, the Alberta-wide rate is that rate. */
  lemma {:induction false} UniformRegionalRate(pops: seq<int>, rates: seq<real>, r: real)
    requires SumInt(pops) != 0 && |rates| == |pops|
    requires forall z :: 0 <= z < |rates| ==> rates[z] == r
    ensures WeightedRate(Weights(pops, SumInt(pops)), rates) == r
  {
    WeightedTimesTotal(pops, rates, SumInt(pops));
    ScaledUniform(pops, rates, r);
    CancelFactor(WeightedRate(Weights(pops, SumInt(pops)), rates), r, SumInt(pops) as real);
  }

  lemma {:induction false} ScaledExactRates(pops: seq<int>, doses: seq<int>, rates: seq<real>)
    requires |pops| == |doses| == |rates|
    requires forall z :: 0 <= z < |pops| ==> rates[z] * pops[z] as real == doses[z] as real * 100.0
    ensures ScaledSum(pops, rates) == SumInt(doses) as real * 100.0
  {
    if pops != [] {
      var n := |pops| - 1;
      ScaledExactRates(pops[..n], doses[..n], rates[..n]);
      SumIntSplit(doses);
      var front, d := SumInt(doses[..n]) as real, doses[n] as real;
      assert (front + d) * 100.0 == front * 100.0 + d * 100.0;
    }
  }

  /** Weighting unrounded zone rates gives exactly the Alberta-wide uptake:
      the weighted rate times all people is a hundred times all doses. */
  lemma {:induction false} RegionalRateIsOverallRate(pops: seq<int>, doses: seq<int>, rates: seq<real>)
    requires SumInt(pops) != 0 && |pops| == |doses| == |rates|
    requires forall z :: 0 <= z < |pops| ==> rates[z] * pops[z] as real == doses[z] as real * 100.0
    ensures WeightedRate(Weights(pops, SumInt(pops)), rates) * SumInt(pops) as real == SumInt(doses) as real * 100.0
  {
    WeightedTimesTotal(pops, rates, SumInt(pops));
    ScaledExactRates(pops, doses, rates);
  }

  lemma {:induction false} ScaledBetween(pops: seq<int>, rates: seq<real>, lo: real, hi: real)
    requires |pops| == |rates|
    requires forall z :: 0 <= z < |pops| ==> 0 <= pops[z] && lo <= rates[z] <= hi
    ensures lo * SumInt(pops) as real <= ScaledSum(pops, rates) <= hi * SumInt(pops) as real
  {
    if pops != [] {
      var n := |pops| - 1;
      ScaledBetween(pops[..n], rates[..n], lo, hi);
      SumIntSplit(pops);
      var front, p := SumInt(pops[..n]) as real, pops[n] as real;
      ScaleBetween(p, lo, rates[n], hi);
      assert lo * (front + p) == lo * front + p * lo;
      assert hi * (front + p) == hi * front + p * hi;
    }
  }

  /** The Alberta-wide rate is a weighted mean: it lies between the lowest
      and the highest zone rate. */
  lemma {:induction false} RegionalRateWithinZoneRates(pops: seq<int>, rates: seq<real>, lo: real, hi: real)
    requires SumInt(pops) > 0 && |pops| == |rates|
    requires forall z :: 0 <= z < |pops| ==> 0 <= pops[z] && lo <= rates[z] <= hi
    ensures lo <= WeightedRate(Weights(pops, SumInt(pops)), rates) <= hi
  {
    var total := SumInt(pops) as real;
    var x := WeightedRate(Weights(pops, SumInt(pops)), rates);
    WeightedTimesTotal(pops, rates, SumInt(pops));
    ScaledBetween(pops, rates, lo, hi);
    assert lo * total <= x * total <= hi * total;
    DivideBounds(x, total, lo, hi);
  }
}
