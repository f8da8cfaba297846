# ETF replacement simulator: fee and profitability core

A Dafny model of the decision logic of the ETF arbitrage simulator (`App.py`).
The simulator asks whether to sell a holding in one ETF ("ETF1") and put the
proceeds into another ETF ("ETF2"). The model covers three parts:

- the **brokerage fee evaluator** (`calculate_fees`). A broker catalogue maps
  a broker to its named fee schedules ("grilles"). A schedule is *simple*
  (a fixed fee or a percentage), *tiered* ("paliers": half-open ranges
  `[min, max)`, each fixed or a percentage with an optional `min_fee` floor)
  or *mixed* (a fixed fee up to a threshold, a percentage above it). Every
  case the evaluator does not recognise costs 0.
- the **transaction fee breakdown** (`calculate_total_transaction_fees`) and
  the two-pass fee computation run before the report is built.
- the **profitability report** (`calculate_replacement_profitability`), the
  recommendation shown under it, and the input guard of the "compute" action.

Modules follow the program's structure:

- `Wrappers` (`wrappers.dfy`): `Option` and `Result`.
- `FeeSchedule` (`fee_schedule.dfy`): schedules, the catalogue, the evaluator
  and its properties.
- `TransactionFees` (`transaction_fees.dfy`): the breakdown and the two passes.
- `Profitability` (`profitability.dfy`): the report and the payback horizon.
- `Recommendation` (`recommendation.dfy`): the replace / consider / do not
  replace / never classification.
- `Analysis` (`analysis.dfy`): the input guard, the whole computation and a
  worked example.

Modelling choices:

- Amounts, prices, rates and expense ratios are `real`. Rates are in
  percentage points.
- The schedule is a closed datatype. A `type` or `fee_type` tag the program
  does not recognise is kept as `UnknownSchedule` or `UnknownKind`, because
  the program gives these a defined meaning. An unknown schedule costs 0. A
  tier of unknown kind that contains the amount does not end the scan: the
  next tier is tried.
- An infinite tier `max` is `Ceiling.NoCeiling`. An infinite payback horizon
  is `Horizon.Never`. `Recommendation.Sooner` compares a horizon with a bound
  as Python compares `float('inf')`: an infinite horizon is never below a bound.
- The ETF catalogue and the broker catalogue are parameters. Live prices are
  fields of the form (`Analysis.Selection`). A price that could not be
  fetched is 0, as in the program. An unselected ticker, broker or schedule
  is the empty string; both are falsy in the program's input check.

What the program does, and the model with it:

- A missing broker or schedule is not an error: the fee is 0.
- The program has no integer-share purchase planner. It divides the final
  amount by the ETF2 price, which gives a fractional share count. It also
  charges the purchase fee on the whole net amount after the sale.
- The program has no "infeasible" report. A negative net amount is carried
  through unchanged.
- The compute button checks that every field is truthy, so a negative ETF1
  price would pass that check. The page never produces one with an ETF2
  price: ETF2 is only quoted once ETF1's price is positive, and its price is
  0 otherwise. `Analysis.Complete` therefore asks for a positive ETF1 price,
  and `Analysis.FillForm` shows that on every form the page fills this is the
  same as the button's check.

## Model

| member | source | states |
|---|---|---|
| `FeeSchedule.Lookup` | App.py:249-252 | a schedule is found exactly when the broker exists and has a schedule of that name, and it is that schedule |
| `FeeSchedule.Fee` | App.py:247-275 | a missing broker or schedule costs 0; otherwise the fee is the fee of the schedule found |
| `FeeSchedule.ScheduleFee` | App.py:252-275 | a flat fixed schedule charges its fee and a flat percentage one `amount * rate / 100`; a tiered one charges what its first deciding tier charges, and 0 when no tier decides; a mixed one charges its fixed fee up to and including the threshold and its percentage above; an unknown schedule type or flat fee kind charges 0 |
| `FeeSchedule.TierCharge` | App.py:263-267 | a fixed tier charges its fee; a percentage tier charges at least its `min_fee` (0 when absent) and at least the raw percentage, and exactly one of the two |
| `FeeSchedule.TierLookup` | App.py:261-267 | the tier found is the first in sequence order that contains the amount in `[min, max)` and has a known kind; no tier is found exactly when no tier is like that |
| `FeeSchedule.SimpleFixedIgnoresAmount` | App.py:254-256 | a simple fixed schedule charges its fee, and the same fee for any two amounts |
| `FeeSchedule.SimplePercentageIsProportional` | App.py:257-258 | a simple percentage schedule charges exactly `amount * rate / 100` |
| `FeeSchedule.FirstDeciderIsFound` | App.py:261-267 | whenever some tier is the first to contain the amount with a known kind, the scan stops at exactly that tier |
| `FeeSchedule.TieredOutOfRangeIsFree` | App.py:260-275 | a tiered schedule with no tier containing the amount falls through to a fee of 0 |
| `FeeSchedule.MixedSplitsAtThreshold` | App.py:269-273 | a mixed schedule charges the fixed fee up to and including the threshold, and exactly the percentage strictly above it |
| `FeeSchedule.UnknownTagIsFree` | App.py:254-275 | an unknown schedule type, and a flat schedule of unknown fee kind, charge 0 whatever the configured fee |
| `FeeSchedule.ScheduleFeeNonNegative` | App.py:252-275 | with non-negative fees, rates and floors, a non-negative amount is charged a non-negative fee under every schedule shape |
| `FeeSchedule.FeeNonNegative` | App.py:247-275 | the same through the broker catalogue, where a missing schedule costs 0 |
| `FeeSchedule.DisjointTierDecides` | App.py:261-267 | when no two tiers overlap, any tier that contains the amount and has a known kind decides the fee, whatever the order of the tiers |
| `FeeSchedule.SameTiersSameDecider` | App.py:261-262 | two amounts that lie in exactly the same tiers are decided by the same tier |
| `TransactionFees.TotalTransactionFees` | App.py:277-286 | the total is the sum of the sale fee and the purchase fee, and each is the fee of its own amount |
| `TransactionFees.RefinedFees` | App.py:548-557 | after the two passes, the sale fee is the fee of the sale and the purchase fee is the fee of the sale minus its own fee; the total is their sum |
| `TransactionFees.MainFeePass` | App.py:544-557 | the breakdown the application computes with the 95 % estimate: the sale fee is the fee of the sale, the purchase fee is the fee of the sale minus its own fee, and the total is their sum |
| `TransactionFees.EstimateIsDiscarded` | App.py:548-557 | the first pass's purchase estimate does not affect the final breakdown |
| `TransactionFees.MainFeePassIsExact` | App.py:544-557 | the breakdown with the 95 % estimate equals the one-pass breakdown on the sale and the sale net of its fee |
| `TransactionFees.MissingScheduleIsFree` | App.py:247-286 | with no matching broker schedule both fees and the total are 0 |
| `TransactionFees.MissingScheduleIsFreeTwice` | App.py:544-557 | the same holds after the two passes, whatever the estimate |
| `TransactionFees.BreakdownNonNegative` | App.py:277-286 | with a well-signed schedule and non-negative amounts, both fees are non-negative and the total is at least each of them |
| `Profitability.ReplacementProfitability` | App.py:318-368 | the sale is `shares * price1`; net and final amounts deduct the sale and purchase fees; with a balanced breakdown, the final amount plus the total cost is the sale; the ETF2 units buy exactly the final amount; the yearly fees are each fund's ratio of its capital; the saving is their difference; the horizons are finite exactly when the saving is positive, and then the saving over the horizon in years repays the cost and the horizon in months is twelve times that |
| `Profitability.PaybackNonNegative` | App.py:345-352 | a non-negative transaction cost gives non-negative finite horizons |
| `Profitability.CheaperFundPaysBack` | App.py:338-352 | with a positive sale, non-negative fees and a strictly lower non-negative ETF2 expense ratio, the horizon is finite |
| `Profitability.FreeSwitchPaysAtOnce` | App.py:346-349 | a switch with zero cost and a positive saving pays back after 0 years and 0 months |
| `Recommendation.Recommend` | App.py:673-681 | for a report with consistent horizons: replace exactly when the saving is positive and one year of it exceeds the cost; consider exactly when it is positive and the cost is between one and six years of it; do not replace exactly when the cost is at least six years of it; never exactly when the saving is not positive |
| `Analysis.Complete` | App.py:540 | a complete form passes the compute button's check that every field is truthy, which is `Analysis.AllTruthy`; completeness is stricter only on a form with a negative ETF1 price, which `Analysis.FillForm` shows the page never builds with a non-zero ETF2 price |
| `Analysis.FillForm` | App.py:412-455 | the form keeps the user's choices; a chosen ETF1 is priced at its quote and an unchosen one at 0; ETF2 is priced at its quote exactly when both ETFs are chosen and ETF1's price is positive, and at 0 otherwise; on such a form the button's check holds exactly when the form is complete |
| `Analysis.FilledFormRefusal` | App.py:412-542 | on a form the page fills, the analysis is refused exactly when the button's check fails |
| `Analysis.Analyse` | App.py:540-563 | the action is refused exactly when a ticker, the share count, the broker or the schedule is missing, the ETF1 price is not positive or the ETF2 price is 0; otherwise it yields the report over the second-pass fees of the sale, with each ETF's expense ratio from the catalogue |
| `Analysis.FlatPercentageFees` | App.py:544-557 | for a 0.5 % simple schedule and a sale of 5000, the two passes give a sale fee of 25, a purchase fee of 24.875 and a total of 49.875 |
| `Analysis.FlatPercentageReport` | App.py:318-368 | for 100 units sold at 50, moved from a 0.75 % fund to a 0.05 % fund priced at 100 with those fees: 4950.125 invested, 49.50125 units, a saving of 35.0249375, and the recommendation is "consider" |

## Left out

- The Streamlit page, CSS, header, `render_grille_display` and every other piece of rendering (App.py:18-187, 288-316, 370-682 outside the modelled lines). These are presentation only.
- `get_etf_price` (App.py:234-245). It is a network quote lookup; prices are inputs of the model.
- `load_etfs_data` and `load_broker_structures` (App.py:189-232). These are file reading and CSV/JSON parsing, including the text clean-up of expense ratios through Python `float()`. The model takes the parsed catalogues as parameters.
- The display-only estimates that assume 5 % of fees (App.py:446-449 and 508-520). They are hints for the form, not results.
- IEEE floating point: rounding, NaN and the truthiness of NaN in the input check. Amounts are exact reals.
- `Profitability.ReplacementProfitability`: requires a non-zero ETF2 price. The program divides by that price (App.py:336), which raises for a plain 0 and gives an infinity or NaN for a floating-point 0. The only caller reaches that division after the compute button's check (App.py:540) has rejected a zero ETF2 price, so the model leaves the division by zero out.
- Malformed schedules: a missing field, a `min_fee` of `null` or a non-numeric value make the program raise. The model's datatypes always carry every field.
- An integer-share purchase planner, infeasible plans and shortfall messages. The program has none of them: it buys a fractional number of ETF2 units with the whole net amount.
- Idempotence of the evaluator is not stated as a lemma. Every Dafny function is deterministic, so it holds by construction.
- `Analysis.Analyse`: its contract states the composition of the modelled operations, not the report's identities again. Those are stated by `Profitability.ReplacementProfitability` and `TransactionFees.RefinedFees`. Restating them through the nested fee evaluations makes the arithmetic too costly for the solver.
