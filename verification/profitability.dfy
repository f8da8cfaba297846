/** The replacement profitability report: what the sale yields, what is left
    to invest in ETF2, the yearly management fees of both funds and how long
    the yearly saving takes to repay the one-time transaction fees. */
module Profitability {
  import opened TransactionFees

  /** A payback horizon; `Never` stands for the infinite horizon of a
      replacement that saves nothing. */
  datatype Horizon = After(value: real) | Never

  datatype Report = Report(
    sellAmount: real,
    netAfterSell: real,
    buyAmount: real,
    finalAmount: real,
    sellFees: real,
    buyFees: real,
    totalCost: real,
    etf2Shares: real,
    annualFee1: real,
    annualFee2: real,
    annualSavings: real,
    paybackYears: Horizon,
    paybackMonths: Horizon)

  /** The horizons are finite exactly when there is a positive saving; then
      the saving accumulated over the horizon in years is the transaction
      cost, and the horizon in months is twelve times the one in years. */
  predicate PaybackConsistent(r: Report) {
    && (r.paybackYears.After? <==> r.annualSavings > 0.0)
    && (r.paybackMonths.After? <==> r.annualSavings > 0.0)
    && (r.paybackYears.After? && r.paybackMonths.After? ==>
          && r.paybackYears.value * r.annualSavings == r.totalCost
          && r.paybackMonths.value == 12.0 * r.paybackYears.value)
  }

  /** The figures the report derives from the capital moved: the ETF2 units
      that the final amount buys, the yearly management fee of each fund on
      the capital it holds, and the yearly saving. */
  predicate CapitalFigures(r: Report, price2: real, expense1: real, expense2: real) {
    && r.etf2Shares * price2 == r.finalAmount
    && r.annualFee1 * 100.0 == r.sellAmount * expense1
    && r.annualFee2 * 100.0 == r.finalAmount * expense2
    && r.annualSavings == r.annualFee1 - r.annualFee2
  }

  /** The report for selling `shares` units of ETF1 at `price1` and putting
      what remains after `fees` into ETF2 at `price2`. Expense ratios are
      yearly rates in percentage points. */
  function ReplacementProfitability(shares: real, price1: real, expense1: real,
                                    price2: real, expense2: real, fees: Breakdown): (r: Report)
    requires price2 != 0.0
    ensures r.sellAmount == shares * price1
    ensures r.sellFees == fees.sellFees && r.buyFees == fees.buyFees && r.totalCost == fees.totalFees
    ensures r.netAfterSell + r.sellFees == r.sellAmount
    ensures r.buyAmount == r.netAfterSell
    ensures r.finalAmount + r.buyFees == r.netAfterSell
    ensures Balanced(fees) ==> r.finalAmount + r.totalCost == r.sellAmount
    ensures CapitalFigures(r, price2, expense1, expense2)
    ensures PaybackConsistent(r)
  {
    var sellAmount := shares * price1;
    var netAfterSell := sellAmount - fees.sellFees;
    var buyAmount := netAfterSell;
    var finalAmount := netAfterSell - fees.buyFees;
    var etf2Shares := finalAmount / price2;
    var annualFee1 := sellAmount * (expense1 / 100.0);
    var annualFee2 := finalAmount * (expense2 / 100.0);
    var annualSavings := annualFee1 - annualFee2;
    var totalCost := fees.totalFees;
    var years := if annualSavings > 0.0 then After(totalCost / annualSavings) else Never;
    var months := if annualSavings > 0.0 then After(years.value * 12.0) else Never;
    Report(sellAmount, netAfterSell, buyAmount, finalAmount, fees.sellFees, fees.buyFees,
           totalCost, etf2Shares, annualFee1, annualFee2, annualSavings, years, months)
  }

  /** A non-negative transaction cost gives non-negative horizons. */
  lemma PaybackNonNegative(r: Report)
    requires PaybackConsistent(r) && r.totalCost >= 0.0
    ensures r.paybackYears.After? ==> r.paybackYears.value >= 0.0
    ensures r.paybackMonths.After? ==> r.paybackMonths.value >= 0.0
  {
  }

  /** Moving to a fund with a strictly lower expense ratio always pays back
      eventually, as long as the fees are non-negative: the capital moved is
      at most the capital sold. */
  lemma CheaperFundPaysBack(shares: real, price1: real, expense1: real,
                            price2: real, expense2: real, fees: Breakdown)
    requires price2 != 0.0 && shares * price1 > 0.0
    requires 0.0 <= expense2 < expense1
    requires fees.sellFees >= 0.0 && fees.buyFees >= 0.0
    ensures ReplacementProfitability(shares, price1, expense1, price2, expense2, fees).paybackYears.After?
  {
    var r := ReplacementProfitability(shares, price1, expense1, price2, expense2, fees);
    var s, f := r.sellAmount, r.finalAmount;
    assert f <= s;
    assert (s - f) * expense2 >= 0.0;
    assert s * (expense1 - expense2) > 0.0;
    assert r.annualSavings * 100.0 == s * expense1 - f * expense2;
  }

  /** A replacement that costs nothing pays back at once when it saves anything. */
  lemma FreeSwitchPaysAtOnce(r: Report)
    requires PaybackConsistent(r) && r.totalCost == 0.0 && r.annualSavings > 0.0
    ensures r.paybackYears == After(0.0) && r.paybackMonths == After(0.0)
  {
  }
}
