/** The fee breakdown of a replacement: selling ETF1 and buying ETF2 under the
    same broker schedule. */
module TransactionFees {
  import opened FeeSchedule

  datatype Breakdown = Breakdown(sellFees: real, buyFees: real, totalFees: real)

  /** The total is the sum of its two parts. */
  predicate Balanced(b: Breakdown) {
    b.totalFees == b.sellFees + b.buyFees
  }

  /** The fees of a sale of `sellAmount` and a purchase of `buyAmount`. */
  function TotalTransactionFees(sellAmount: real, buyAmount: real, broker: string, grille: string,
                                cat: Catalogue): (b: Breakdown)
    ensures Balanced(b)
    ensures b.sellFees == Fee(sellAmount, broker, grille, cat)
    ensures b.buyFees == Fee(buyAmount, broker, grille, cat)
  {
    var sellFees := Fee(sellAmount, broker, grille, cat);
    var buyFees := Fee(buyAmount, broker, grille, cat);
    Breakdown(sellFees, buyFees, sellFees + buyFees)
  }

  /** The two passes run before the profitability calculation: a first
      breakdown with an estimated purchase amount, then a second one whose
      purchase amount is the sale net of the first pass's sale fee. */
  function RefinedFees(sellAmount: real, estimatedBuy: real, broker: string, grille: string,
                       cat: Catalogue): (b: Breakdown)
    ensures Balanced(b)
    ensures b.sellFees == Fee(sellAmount, broker, grille, cat)
    ensures b.buyFees == Fee(sellAmount - Fee(sellAmount, broker, grille, cat), broker, grille, cat)
  {
    var approx := TotalTransactionFees(sellAmount, estimatedBuy, broker, grille, cat);
    var netAfterSell := sellAmount - approx.sellFees;
    TotalTransactionFees(sellAmount, netAfterSell, broker, grille, cat)
  }

  /** The estimate the application uses for the first pass: 95 % of the sale.
      The breakdown it yields charges the sale its own fee and the purchase
      the fee of the sale net of that fee. */
  function MainFeePass(sellAmount: real, broker: string, grille: string, cat: Catalogue): (b: Breakdown)
    ensures Balanced(b)
    ensures b.sellFees == Fee(sellAmount, broker, grille, cat)
    ensures b.buyFees == Fee(sellAmount - Fee(sellAmount, broker, grille, cat), broker, grille, cat)
  {
    RefinedFees(sellAmount, sellAmount * 0.95, broker, grille, cat)
  }

  /** The first pass's purchase estimate is thrown away: any two estimates
      give the same final breakdown. */
  lemma EstimateIsDiscarded(sellAmount: real, e1: real, e2: real, broker: string, grille: string,
                            cat: Catalogue)
    ensures RefinedFees(sellAmount, e1, broker, grille, cat) == RefinedFees(sellAmount, e2, broker, grille, cat)
  {
  }

  /** The breakdown used by the application is the one-pass breakdown whose
      purchase amount is the sale minus its own fee. */
  lemma MainFeePassIsExact(sellAmount: real, broker: string, grille: string, cat: Catalogue)
    ensures MainFeePass(sellAmount, broker, grille, cat)
         == TotalTransactionFees(sellAmount, sellAmount - Fee(sellAmount, broker, grille, cat), broker, grille, cat)
  {
  }

  /** Without a matching broker schedule the replacement costs nothing. */
  lemma MissingScheduleIsFree(sellAmount: real, buyAmount: real, broker: string, grille: string,
                              cat: Catalogue)
    requires broker !in cat || grille !in cat[broker].grilles
    ensures TotalTransactionFees(sellAmount, buyAmount, broker, grille, cat) == Breakdown(0.0, 0.0, 0.0)
  {
  }

  /** The same holds of the two-pass breakdown, whatever the estimate. */
  lemma MissingScheduleIsFreeTwice(sellAmount: real, estimatedBuy: real, broker: string, grille: string,
                                   cat: Catalogue)
    requires broker !in cat || grille !in cat[broker].grilles
    ensures var b := RefinedFees(sellAmount, estimatedBuy, broker, grille, cat);
            b.sellFees == 0.0 && b.buyFees == 0.0 && b.totalFees == 0.0
  {
  }

  /** With a well-signed schedule, non-negative amounts cost non-negative
      fees, and the total is at least each of its parts. */
  lemma BreakdownNonNegative(sellAmount: real, buyAmount: real, broker: string, grille: string,
                             cat: Catalogue)
    requires sellAmount >= 0.0 && buyAmount >= 0.0
    requires Lookup(cat, broker, grille).Some? ==> WellSigned(Lookup(cat, broker, grille).value)
    ensures var b := TotalTransactionFees(sellAmount, buyAmount, broker, grille, cat);
            b.sellFees >= 0.0 && b.buyFees >= 0.0 && b.totalFees >= b.sellFees && b.totalFees >= b.buyFees
  {
    BothFeesNonNegative(sellAmount, buyAmount, broker, grille, cat);
    BreakdownOfNonNegativeFees(sellAmount, buyAmount, broker, grille, cat);
  }

  /** The two fee values of a breakdown, each non-negative. */
  lemma BothFeesNonNegative(sellAmount: real, buyAmount: real, broker: string, grille: string,
                            cat: Catalogue)
    requires sellAmount >= 0.0 && buyAmount >= 0.0
    requires Lookup(cat, broker, grille).Some? ==> WellSigned(Lookup(cat, broker, grille).value)
    ensures Fee(sellAmount, broker, grille, cat) >= 0.0 && Fee(buyAmount, broker, grille, cat) >= 0.0
  {
    FeeNonNegative(sellAmount, broker, grille, cat);
    FeeNonNegative(buyAmount, broker, grille, cat);
  }

  /** The breakdown facts follow from the two fee values alone. */
  lemma BreakdownOfNonNegativeFees(sellAmount: real, buyAmount: real, broker: string, grille: string,
                                   cat: Catalogue)
    requires Fee(sellAmount, broker, grille, cat) >= 0.0 && Fee(buyAmount, broker, grille, cat) >= 0.0
    ensures var b := TotalTransactionFees(sellAmount, buyAmount, broker, grille, cat);
            b.sellFees >= 0.0 && b.buyFees >= 0.0 && b.totalFees >= b.sellFees && b.totalFees >= b.buyFees
  {
  }
}
