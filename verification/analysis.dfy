/** The "compute profitability" action: validate the form, run the two fee
    passes and build the report from the ETF catalogue's expense ratios. */
module Analysis {
  import opened Wrappers
  import opened FeeSchedule
  import opened TransactionFees
  import opened Profitability
  import opened Recommendation

  /** One entry of the ETF catalogue, keyed by ticker. */
  datatype Etf = Etf(name: string, expenseRatio: real, isin: string)

  /** The state of the form when the user asks for the analysis. An empty
      ticker, broker or schedule name means nothing is selected; a price that
      could not be fetched is 0. */
  datatype Selection = Selection(
    etf1: string,
    etf2: string,
    shares: nat,
    price1: real,
    price2: real,
    broker: string,
    grille: string)

  datatype AnalysisError = IncompleteSelection

  /** The check of the compute button: every field is truthy, that is a
      non-empty name, a non-zero price and a positive share count. */
  predicate AllTruthy(sel: Selection) {
    && sel.etf1 != "" && sel.etf2 != ""
    && sel.price1 != 0.0 && sel.price2 != 0.0
    && sel.shares > 0
    && sel.broker != "" && sel.grille != ""
  }

  /** Every field the analysis needs is filled in, and the ETF1 price is
      positive: the page only quotes ETF2 once ETF1 has a positive price. */
  predicate Complete(sel: Selection)
    ensures Complete(sel) ==> AllTruthy(sel)
  {
    && sel.etf1 != "" && sel.etf2 != ""
    && sel.price1 > 0.0 && sel.price2 != 0.0
    && sel.shares > 0
    && sel.broker != "" && sel.grille != ""
  }

  /** The form as the page fills it from the user's choices and two quotes
      (0 for a quote that could not be fetched). ETF1 is quoted once it is
      chosen; ETF2 only once both are chosen and ETF1's price is positive,
      and its price is 0 otherwise. On such a form, the button's check and
      completeness agree. */
  function FillForm(etf1: string, etf2: string, shares: nat, quote1: real, quote2: real,
                    broker: string, grille: string): (sel: Selection)
    ensures sel.etf1 == etf1 && sel.etf2 == etf2 && sel.shares == shares
    ensures sel.broker == broker && sel.grille == grille
    ensures sel.price1 != 0.0 ==> etf1 != "" && sel.price1 == quote1
    ensures sel.price2 != 0.0 ==> sel.price1 > 0.0 && sel.price2 == quote2
    ensures etf1 != "" ==> sel.price1 == quote1
    ensures etf1 == "" ==> sel.price1 == 0.0
    ensures etf1 != "" && etf2 != "" && sel.price1 > 0.0 ==> sel.price2 == quote2
    ensures !(etf1 != "" && etf2 != "" && sel.price1 > 0.0) ==> sel.price2 == 0.0
    ensures AllTruthy(sel) <==> Complete(sel)
  {
    var price1 := if etf1 != "" then quote1 else 0.0;
    var price2 := if etf1 != "" && etf2 != "" && price1 > 0.0 then quote2 else 0.0;
    Selection(etf1, etf2, shares, price1, price2, broker, grille)
  }

  /** The tickers offered to the user are the catalogue's own keys. */
  predicate FromCatalogue(sel: Selection, etfs: map<string, Etf>) {
    && (sel.etf1 != "" ==> sel.etf1 in etfs)
    && (sel.etf2 != "" ==> sel.etf2 in etfs)
  }

  /** The analysis: refused exactly when the form is incomplete, otherwise
      the profitability report for the form's position, prices and expense
      ratios, over the fees of the second pass. */
  function Analyse(sel: Selection, etfs: map<string, Etf>, cat: Catalogue): (r: Result<Report, AnalysisError>)
    requires FromCatalogue(sel, etfs)
    ensures r.Failure? <==> !Complete(sel)
    ensures r.Success? ==>
      r.value == ReplacementProfitability(sel.shares as real, sel.price1, etfs[sel.etf1].expenseRatio,
                                          sel.price2, etfs[sel.etf2].expenseRatio,
                                          MainFeePass(sel.shares as real * sel.price1, sel.broker, sel.grille, cat))
  {
    if !Complete(sel) then Failure(IncompleteSelection)
    else
      var sellAmount := sel.shares as real * sel.price1;
      var fees := MainFeePass(sellAmount, sel.broker, sel.grille, cat);
      Success(ReplacementProfitability(sel.shares as real, sel.price1, etfs[sel.etf1].expenseRatio,
                                       sel.price2, etfs[sel.etf2].expenseRatio, fees))
  }

  /** On a form the page fills, the analysis is refused exactly when the
      button's own check fails. */
  lemma FilledFormRefusal(etf1: string, etf2: string, shares: nat, quote1: real, quote2: real,
                          broker: string, grille: string, etfs: map<string, Etf>, cat: Catalogue)
    requires FromCatalogue(FillForm(etf1, etf2, shares, quote1, quote2, broker, grille), etfs)
    ensures var sel := FillForm(etf1, etf2, shares, quote1, quote2, broker, grille);
            Analyse(sel, etfs, cat).Failure? <==> !AllTruthy(sel)
  {
  }

  /** A worked example, fees first: under a 0.5 % flat schedule a sale of
      5000 costs 25, and the purchase with the 4975 left costs 24.875. */
  lemma FlatPercentageFees()
    ensures
      var cat := map["B" := Broker(map["G" := Simple(Percentage, 0.5)])];
      MainFeePass(5000.0, "B", "G", cat) == Breakdown(25.0, 24.875, 49.875)
  {
    var cat := map["B" := Broker(map["G" := Simple(Percentage, 0.5)])];
    assert Lookup(cat, "B", "G") == Some(Simple(Percentage, 0.5));
    assert Fee(5000.0, "B", "G", cat) == 25.0;
    assert Fee(4975.0, "B", "G", cat) == 24.875;
  }

  /** The same example, report second: 100 units sold at 50 and moved from a
      0.75 % fund to a 0.05 % fund priced at 100. 4950.125 is invested, the
      yearly saving is 35.0249375 and the 49.875 of fees take between one and
      six years to recover. */
  lemma FlatPercentageReport()
    ensures
      var r := ReplacementProfitability(100.0, 50.0, 0.75, 100.0, 0.05, Breakdown(25.0, 24.875, 49.875));
      && r.sellAmount == 5000.0
      && r.netAfterSell == 4975.0
      && r.finalAmount == 4950.125
      && r.etf2Shares == 49.50125
      && r.annualFee1 == 37.5
      && r.annualFee2 == 2.4750625
      && r.annualSavings == 35.0249375
      && Recommend(r) == Consider
  {
  }
}
