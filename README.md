# Lease quote calculator — Dafny model

This project models the pricing core of a browser-based lease-quote calculator
(`product-calculator.js`). Given a product price, a down-payment ratio and a lease period,
the calculator computes a down payment, the rent charged on the unpaid balance, a tiered
service fee, the total to pay and an equal installment for periods 2..period. The
configuration it reads is one mutable settings object. It holds a base interest rate, the
selectable ratios and periods, a sparse rate table (ratio → period → stored offset from a
baseline of 100) and a service-fee table keyed by 23 price-interval floors (1000 to 8700,
step 350). An administration panel edits this object in place.

Modules (one per component, all exact `real` arithmetic):

- `Wrappers` (`wrappers.dfy`): `Option` and `Result`.
- `ServiceCost` (`service_cost.dfy`): the shared floor list and the loop that builds it;
  the bucketing of a price into an interval; the fee lookup loop; the default fee table;
  the load-time repair loop that fills missing fees.
- `Rates` (`rates.dfy`): effective and displayed rate; writing one cell; the default rate
  table and the nested loops that build it.
- `Quotes` (`quotes.dfy`): price validation; the quote arithmetic; the installment list.
- `Gating` (`gating.dfy`): which periods are offered for a ratio, and the loop that builds
  the options.
- `Config` (`config.dfy`): class `Settings`, with the fields the program mutates, its
  mutators, loading, and the calculation against the current settings.

Three behaviours of the code that a reader might not expect are kept as written:
- A rate cell that stores 0 falls back to the interest rate (the code tests truthiness),
  although the panel displays such a cell as 100 (`Rates.DisplayedMatchesEffective`).
- A price below the first floor uses the first floor's fee: the scan matches no interval and the interval keeps its initial value 1000.
- Loading repairs only a missing or incomplete fee table. The other fields are taken as
  stored.

## Model

| member | source | states |
|---|---|---|
| `ServiceCost.FloorsFormula` | product-calculator.js:174 | the 23 floors are 1000 + 350·k, so they strictly increase |
| `ServiceCost.BuildIntervals` | product-calculator.js:11-15 | the loop from 1000 while ≤ 9000, step 350, yields exactly the shared floor list |
| `ServiceCost.Bucket` | product-calculator.js:176-189 | the resolved floor index is the last floor not above the amount, or 0 below the first floor; the amount is below the next floor |
| `ServiceCost.BucketIs` | product-calculator.js:176-184 | left-closed, right-open bucketing: an amount in [floor i, floor i+1) resolves to floor i; below 1000 resolves to 1000 |
| `ServiceCost.BucketAboveLast` | product-calculator.js:186-189 | amounts ≥ 8700 resolve to floor 8700 |
| `ServiceCost.ServiceCostFee` | product-calculator.js:192 | every amount in interval i costs the fee of floor i, and an amount below 1000 the fee of floor 1000; a floor without a fee gives 0 |
| `ServiceCost.CalculateServiceCost` | product-calculator.js:170-193 | the scan-and-break loop returns the fee of the amount's interval (last floor for ≥ 8700, first floor below 1350), 0 when unset |
| `ServiceCost.DefaultServiceCostCoversFloors` | product-calculator.js:18-42 | the start-up fee table has a fee for exactly the 23 floors |
| `ServiceCost.RoundHalfUp` | product-calculator.js:595 | Math.round: the result is within half a unit of its argument, halves rounding up |
| `ServiceCost.MissingFee` | product-calculator.js:591-596 | a floor missing on load takes its page field's value when there is one, otherwise the whole number within half a unit of 1% of the floor |
| `ServiceCost.RepairServiceCost` | product-calculator.js:584-599 | after the repair every floor has a fee, existing fees are kept, and a missing one takes the page's field value or round(floor × 0.01) |
| `Rates.EffectiveRate` | product-calculator.js:196-204 | a present nonzero cell gives cell + 100; a missing or zero cell gives interest rate + 100 |
| `Rates.DisplayedRate` | product-calculator.js:398-403 | the panel shows cell + 100 for any present cell, interest rate + 100 otherwise |
| `Rates.DisplayedMatchesEffective` | product-calculator.js:398-403 | panel and quote agree except on a cell storing 0, shown as 100 but quoted at interest rate + 100 |
| `Rates.SetRate` | product-calculator.js:511-516 | the written cell holds the new offset, the ratio's row is created if absent, and every other cell is unchanged |
| `Rates.RateEditRoundTrip` | product-calculator.js:408-409 | entering displayed rate d stores d − 100; the panel then shows d and quotes use d unless d = 100 |
| `Rates.SetRateKeepsOtherRates` | product-calculator.js:511-516 | writing one cell leaves the effective rate of every other (ratio, period) unchanged |
| `Rates.BuildDefaultRateTable` | product-calculator.js:612-634 | the nested loops over the default data build exactly the table of those rows |
| `Rates.DefaultTableCells` | product-calculator.js:616-623 | every listed default cell is in the default table with its offset, and quotes use offset + 100 for it |
| `Quotes.ValidatePrice` | product-calculator.js:100-122 | a price is accepted iff it parses and 2000 ≤ price ≤ 1000000; otherwise not-positive, below-minimum or above-maximum, each iff its range |
| `Quotes.QuoteOf` | product-calculator.js:137-156 | total = down payment + rent + fee, and installment × (period − 1) = total − down payment |
| `Quotes.QuoteClosedForm` | product-calculator.js:137-156 | down payment = price × ratio, down payment + unpaid = price, rent = unpaid × rate / 100, installments carry rent + fee |
| `Quotes.QuoteFor` | product-calculator.js:126-167 | a quote is produced iff the price is in range and period ≥ 2; a bad price is reported first with its reason; a produced quote keeps total = down payment + rent + fee and installment × (period − 1) = total − down payment |
| `Quotes.QuoteForOutcome` | product-calculator.js:144-156 | a produced quote is priced with the rate and the fee resolved for that ratio, period and price |
| `Quotes.InstallmentSchedule` | product-calculator.js:233-247 | the list has period − 1 lines numbered 2..period, each for the monthly payment, billing monthly × count in all |
| `Quotes.ScheduleSettlesQuote` | product-calculator.js:152-156 | down payment plus all period − 1 installments equals the total to pay |
| `Quotes.DefaultSettingsQuote` | product-calculator.js:137-156 | on the default settings, 5000 at 0.3 over 10 periods gives 1500 down, rent 4805.5, fee 150, total 6455.5, installment 4955.5/9 |
| `Gating.SelectedRatio` | product-calculator.js:331 | an unparsable or zero selection falls back to 0.3; otherwise the selected ratio is used |
| `Gating.ShownPeriods` | product-calculator.js:334-342 | a period is offered iff it is configured and (ratio ≥ 0.35 or period ≠ 12) |
| `Gating.ShownPeriodsAppend` | product-calculator.js:334-342 | filtering distributes over concatenation, so offered periods keep the configured order |
| `Gating.ShownPeriodsAllAboveGate` | product-calculator.js:336 | at ratio ≥ 0.35 all configured periods are offered, in order |
| `Gating.ShownPeriodsBelowGate` | product-calculator.js:336 | below 0.35 period 12 is never offered and only its occurrences are dropped |
| `Gating.LeasePeriodOptions` | product-calculator.js:318-346 | the option-building loop yields exactly the filtered period list |
| `Gating.DefaultPeriodsGated` | product-calculator.js:333-342 | with periods [6, 10, 12], ratio 0.2 offers [6, 10] and ratio 0.35 offers all three |
| `Config.RemoveAt` | product-calculator.js:477 | splice(index, 1) shortens by one, keeps the prefix, shifts the suffix down, and drops exactly that element |
| `Config.Settings.constructor` | product-calculator.js:2-42 | start-up settings: rate 1.286, ratios [0.2 … 0.5], periods [6, 10, 12], empty rate table, the 23-floor fee table |
| `Config.Settings.AddDownPaymentRatio` | product-calculator.js:461-465 | appends 0.5 at the end, in any state |
| `Config.Settings.AddLeasePeriod` | product-calculator.js:468-472 | appends 30 at the end, in any state |
| `Config.Settings.RemoveDownPaymentRatio` | product-calculator.js:475-483 | removes the indexed ratio iff more than one remains; the list never becomes empty |
| `Config.Settings.RemoveLeasePeriod` | product-calculator.js:486-494 | removes the indexed period iff more than one remains; the list never becomes empty |
| `Config.Settings.UpdateRatio` | product-calculator.js:497-501 | replaces only the indexed ratio, keeping the length |
| `Config.Settings.UpdatePeriod` | product-calculator.js:504-508 | replaces only the indexed period, keeping the length |
| `Config.Settings.UpdateRateTable` | product-calculator.js:511-516 | the table becomes the old one with that single cell written (row created on demand) |
| `Config.Settings.EditDisplayedRate` | product-calculator.js:408-409 | after entering d the panel shows d and quotes use d unless d = 100 |
| `Config.Settings.UpdateServiceCost` | product-calculator.js:456-458 | writes exactly one floor's fee |
| `Config.Settings.InitializeDefaultRateTable` | product-calculator.js:608-634 | the rate table becomes the default table |
| `Config.Settings.LoadSettings` | product-calculator.js:569-605 | saved settings replace the fields and the fee table is repaired; without them only the default rate table is installed; both lists stay non-empty when the saved lists are |
| `Config.Settings.Calculate` | product-calculator.js:126-167 | the result is the quote of the current settings' rate and fee, or the price or term error |

## Left out

- Rendering and event wiring (result display, HTML of the installment list and rate table, option and list builders, `bindEvents`, `updateUI`): presentation only. The installment list is kept as a list of (period, amount) lines.
- The administration unlock by a magic input string and the matching branch of the price validation: access gating through the user interface.
- Storage, JSON and host calls (`localStorage`, `saveSettings`, `exportSettings`, `alert`, `confirm`, `console.log`, timers): `LoadSettings` receives the stored settings as an optional `Snapshot`, and the values of the page's fee fields as a map from floor to value.
- `initializeServiceCostTable`: it seeds fees from page input fields and registers listeners.
- `resetSettings`: after a confirmation dialog it sets every field back to its start-up value but with an empty fee table, reinstalls the default rate table, clears storage and refills the fees from the page's fields; the dialog, storage and page seeding are outside the model.
- Text parsing (`parseFloat`, `parseInt`) and the string keys JavaScript gives float ratios: inputs arrive parsed; an unparsable price or ratio selection is `None`. NaN values stored in the tables are not modelled.
- IEEE-754 rounding and `toFixed` formatting: all arithmetic is exact over `real`, including 1% of a floor before Math.round.
- The unused `costIntervals` field.
- `Config.Settings.LoadSettings`: loaded ratio and period lists are not checked for emptiness, as in the source; the settings stay valid only when the saved lists are non-empty.
- `Config.Settings.InitializeDefaultRateTable`: the branch that refills a missing fee table is not modelled, because the fee table always holds a map here.
- `Quotes.QuoteFor`: a period below 2 is refused as `DegenerateTerm`. The source divides by period − 1, which gives Infinity or NaN for period 1 and a negative count for smaller periods.
- An unselected lease period (the placeholder option parses to NaN) is not modelled: the period is always an integer.
- `Config.Settings.RemoveDownPaymentRatio`, `RemoveLeasePeriod`, `UpdateRatio`, `UpdatePeriod`: the index must lie within the list, since the panel only renders indices of existing entries. Out-of-range splicing and sparse-array growth are not modelled.
