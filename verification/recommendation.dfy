/** The verdict shown under a profitability report. */
module Recommendation {
  import opened Profitability

  datatype Recommendation = Replace | Consider | DoNotReplace | NeverProfitable

  /** `h < bound` as the application compares it: an infinite horizon is
      never below a bound. */
  predicate Sooner(h: Horizon, bound: real) {
    h.After? && h.value < bound
  }

  /** Replace when the switch pays back within a year, consider it within
      six years, advise against it beyond that, and never when there is no
      positive saving. On a report whose horizons are consistent, this
      compares the transaction cost with one and six years of saving. */
  function Recommend(r: Report): (rec: Recommendation)
    ensures PaybackConsistent(r) ==>
              (rec == Replace <==> r.annualSavings > 0.0 && r.totalCost < r.annualSavings)
    ensures PaybackConsistent(r) ==>
              (rec == Consider <==> r.annualSavings > 0.0 && r.annualSavings <= r.totalCost < 6.0 * r.annualSavings)
    ensures PaybackConsistent(r) ==>
              (rec == DoNotReplace <==> r.annualSavings > 0.0 && r.totalCost >= 6.0 * r.annualSavings)
    ensures rec == NeverProfitable <==> r.annualSavings <= 0.0
  {
    HorizonsAgainstCost(r);
    if r.annualSavings > 0.0 then
      if Sooner(r.paybackMonths, 12.0) then Replace
      else if Sooner(r.paybackYears, 6.0) then Consider
      else DoNotReplace
    else NeverProfitable
  }

  /** A horizon `y` with `y * s == c` is shorter than `k` exactly when `k`
      years of a positive saving `s` exceed the cost `c`. */
  lemma HorizonVersusCost(y: real, s: real, c: real, k: real)
    requires s > 0.0 && y * s == c
    ensures y < k <==> c < k * s
  {
    assert c - k * s == (y - k) * s;
    if y < k {
      assert (k - y) * s > 0.0;
    } else {
      assert (y - k) * s >= 0.0;
    }
  }

  /** With a positive saving and consistent horizons, the two horizon tests
      of the recommendation are tests of the cost against one and six years
      of saving. */
  lemma HorizonsAgainstCost(r: Report)
    ensures PaybackConsistent(r) && r.annualSavings > 0.0 ==>
              (Sooner(r.paybackMonths, 12.0) <==> r.totalCost < r.annualSavings)
    ensures PaybackConsistent(r) && r.annualSavings > 0.0 ==>
              (Sooner(r.paybackYears, 6.0) <==> r.totalCost < 6.0 * r.annualSavings)
  {
    if PaybackConsistent(r) && r.annualSavings > 0.0 {
      var y, s := r.paybackYears.value, r.annualSavings;
      assert Sooner(r.paybackMonths, 12.0) <==> y < 1.0;
      assert Sooner(r.paybackYears, 6.0) <==> y < 6.0;
      HorizonVersusCost(y, s, r.totalCost, 1.0);
      HorizonVersusCost(y, s, r.totalCost, 6.0);
    }
  }
}
