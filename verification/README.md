# Buy vs rent: the projection engines

This project models the calculation core of a buy-versus-rent calculator in
Dafny:

- **Buy** (`BuyScenario`, buy.dfy). Pay a deposit, take an interest-only
  mortgage on the rest of the price, and invest whatever income is left each
  month. The engine refuses to start when savings do not cover the deposit.
  Otherwise it runs `max_months` months. Each month it:
  - records the month, the house price, the portfolio and the net wealth;
  - latches the first month whose portfolio covers the outstanding mortgage;
  - adds that month's surplus after expenses, interest and owner cost, floored
    at zero, to the grown portfolio;
  - grows income, expenses, owner cost and house price by their monthly
    multipliers.
- **Rent** (`RentScenario`, rent.dfy). Keep all savings invested and pay rent.
  The loop has the same shape. The stop month is the first month whose
  portfolio covers that same month's, growing, property price.
- **Duration** (`Duration`, duration.dfy). Renders a month count as
  `"{years} years, {months} months"`.
- **Shared pieces** (`Projection`, projection.dfy):
  - compounding, the zero floor and the loop horizon;
  - `Invested`, a portfolio that grows by the return and takes in each month's
    surplus floored at zero, over any surplus series;
  - `Recorded`, the list built by appending one value of a series per month;
  - the first-reach latch.
- **Wrappers** (wrappers.dfy): the `Option` type, used for the stop month and
  for a buy run that cannot start.

How the model is built:

- Both simulators are methods with the source's loop and its local variables.
  The history is a record of sequences that the loop appends to.
- Each loop is proved against "state at the start of month k" functions:
  `BuyFlowsAt`, `BuyPortfolioAt`, `BuyHistoryOf` and `BuyStopOf`, with the
  same set for rent. The method's `ensures` ties its result to them.
- Both scenarios invest in the same way and differ only in their surplus. So
  the portfolio of each is `Invested` applied to its own surplus series
  (`BuySurplusSeries`, `RentSurplusSeries`). Its month-by-month facts are
  proved once, in `Projection`.
- Lemmas then say what those functions promise:
  - one snapshot per month, with its formula;
  - the stop month is the least month that reaches its target, and None
    exactly when no month does;
  - geometric growth of the income, expense, cost and price series;
  - the portfolio never shrinks below its compounded value, and is never
    negative.
- Money is modelled as exact `real`.
- The monthly growth multipliers `(1 + annual rate)^(1/12)` are fields of the
  configuration, because the model cannot compute them. Lemmas that need a
  multiplier to be positive say so (`ValidMultiplier`).
- The mortgage rate stays annual and is charged as `rate / 12.0` a month, as
  in the source.

`format_duration` (app.py:185-188) returns the text
`"{years} years, {months} months"`. The split into years and months is
`DurationParts`, and the text is `FormatDuration`, which `ReadDuration`
inverts.

## Model

| member | source | states |
|---|---|---|
| Projection.FloorAtZero | app.py:97-99 | the disposable income is at least 0 and at least the surplus, and it is one of the two |
| Projection.Compounded | app.py:104-108 | a quantity multiplied by its monthly multiplier once per month, as each `*=` does, after k months; it has no contract of its own, and CompoundedIsPow and CompoundedNonNegative state its properties |
| Projection.Horizon | app.py:81 | the number of iterations of `for month in range(max_months)`, the same count as app.py:164: `max_months`, or none when it is zero or negative; it has no contract of its own, and BuyOutcomeLength and RentOutcomeLength state its properties |
| Projection.Invested | app.py:98-102 | the running `investment_portfolio` after k months of `portfolio * r + max(surplus, 0)`, shared by both scenarios; it has no contract of its own, and InvestedStep, InvestedNext and InvestedCompounds state its properties |
| Projection.CompoundedIsPow | app.py:104-108 | a quantity multiplied by `m` each month is `start * m^k` after k months |
| Projection.CompoundedNonNegative | app.py:101-102 | a non-negative start compounded by a positive multiplier stays non-negative |
| Projection.InvestedStep | app.py:96-102 | in a month whose surplus is negative the portfolio is exactly the grown portfolio; otherwise it is the grown portfolio plus the whole surplus |
| Projection.InvestedNeverDrawn | app.py:98-102 | a shortfall is never taken from the portfolio: each month it is at least the previous month's portfolio times the return multiplier |
| Projection.InvestedCompounds | app.py:98-102 | whatever the surpluses, the portfolio is at least its starting value compounded at the return multiplier |
| Projection.InvestedNonNegative | app.py:98-102 | a non-negative start and a positive return multiplier keep every month's portfolio non-negative |
| Projection.InvestedNext | app.py:102 | `investment_portfolio * mi_return + monthly_disposable` applied to month k's portfolio and surplus is month k + 1's portfolio |
| Projection.Recorded | app.py:84-87 | after n months of appends each list holds n entries |
| Projection.RecordedAt | app.py:84-87 | entry i of an appended list is the value appended in month i |
| Projection.RecordedNext | app.py:84-87 | appending month n's value to the list of n months gives the list of n + 1 months |
| Projection.LatchExtends | app.py:89-91 | one more month of the `stop_month is None and ...` latch keeps the stop month the first month that reaches its target, and None exactly when none has |
| Projection.FirstReachUnique | app.py:89-91 | the first-reach condition admits only one stop month, so a re-scan of the returned series agrees with the latch |
| BuyScenario.Deposit | app.py:65 | the deposit is `deposit_fraction * property_price`; it has no contract of its own, and DepositAndMortgageCoverPrice and DepositAndMortgageBounded state its properties |
| BuyScenario.OutstandingMortgage | app.py:71 | the principal is `property_price * (1 - deposit_fraction)`, fixed for the whole run; it has no contract of its own, and DepositAndMortgageCoverPrice and DepositAndMortgageBounded state its properties |
| BuyScenario.InterestPayment | app.py:94 | the monthly interest is the fixed principal times `m_interest`, the annual rate over 12 (app.py:60), charged again unchanged every month; it has no contract of its own and rests on that one-line body |
| BuyScenario.BuyFlowsAt | app.py:73-108 | the running income, expenses, owner cost and house price at the start of month k, each updated by its `*=` once per month; it has no contract of its own, and BuyFlowsNext and BuyGrowthAt state its properties |
| BuyScenario.BuySurplus | app.py:97 | `monthly_disposable` before the clamp: income minus expenses, mortgage interest and owner cost; it has no contract of its own, and BuyPortfolioNext states its properties |
| BuyScenario.BuyPortfolioAt | app.py:70-102 | the running `investment_portfolio` at the start of month k, starting from savings minus the deposit; it has no contract of its own, and BuyPortfolioNext, BuyPortfolioCompounds and BuyPortfolioNonNegative state its properties |
| BuyScenario.NetWealth | app.py:83 | `(current_house_price - outstanding_mortgage) + investment_portfolio`; it has no contract of its own, and BuyHistoryRecords and BuyMonthZero state its properties |
| BuyScenario.BuyStopOf | app.py:89-91 | the latch `stop_month` after n months; it has no contract of its own, and BuyStopIsFirst states its properties |
| BuyScenario.BuyOutcomeOf | app.py:110 | the returned triple of stop month, final portfolio and history after n months; it has no contract of its own, and BuyOutcomeMeaning, BuyOutcomeLength and BuyFinalIsNextSnapshot state its properties |
| BuyScenario.DepositAndMortgageBounded | app.py:65-71 | for a deposit fraction between 0 and 1 and a non-negative price, the deposit and the mortgage each lie between 0 and the price |
| BuyScenario.DepositAndMortgageCoverPrice | app.py:65-71 | the deposit plus the outstanding mortgage is exactly the property price |
| BuyScenario.BuyHistoryOf | app.py:78-87 | after n months each of the four history lists holds n entries |
| BuyScenario.SimulateBuy | app.py:7-110 | returns None exactly when `initial_savings < deposit_fraction * property_price`, so savings equal to the deposit are accepted; otherwise returns the stop month, final portfolio and history of a `max(0, max_months)`-month projection |
| BuyScenario.BuyOutcomeLength | app.py:81-87 | a run records `max_months` months when `max_months >= 0`, and none when `max_months <= 0` |
| BuyScenario.BuyPortfolioNext | app.py:93-102 | the loop's interest, floor and portfolio update, applied to month k's running values, give month k + 1's portfolio |
| BuyScenario.BuyFlowsNext | app.py:104-108 | the loop's four `*=` updates take month k's income, expenses, owner cost and house price to month k + 1's |
| BuyScenario.BuyHistoryNext | app.py:83-87 | the loop's four appends take the history of k months to the history of k + 1 months |
| BuyScenario.BuyHistoryRecords | app.py:81-87 | entry i of every list is month i's snapshot: `months[i] == i`, the house price and portfolio at the start of month i, and `net_wealth[i] == house_price[i] - outstanding_mortgage + investment_portfolio[i]` with one unchanging mortgage |
| BuyScenario.BuyStopIsFirst | app.py:89-91 | the stop month is the least recorded month whose portfolio is at least the outstanding mortgage; it is None exactly when no recorded month is |
| BuyScenario.BuyOutcomeMeaning | app.py:78-91 | the returned history and stop month together satisfy both statements above |
| BuyScenario.BuyFinalIsNextSnapshot | app.py:101-110 | the returned final portfolio is the value a run one month longer records for month `max_months`, one step past the last snapshot |
| BuyScenario.BuyMonthZero | app.py:70-87 | month 0 has portfolio `initial_savings - deposit`, house price `property_price` and net wealth `initial_savings` |
| BuyScenario.BuyFlowsCompound | app.py:73-108 | income, expenses, owner cost and house price each compound independently from their starting values |
| BuyScenario.BuyGrowthAt | app.py:104-108 | at month k each of the four is its starting value times its monthly multiplier to the k |
| BuyScenario.BuyPortfolioCompounds | app.py:96-102 | the portfolio is always at least the post-deposit savings compounded at the investment return |
| BuyScenario.BuyPortfolioNonNegative | app.py:65-102 | when the run starts and the return multiplier is positive, no month's portfolio is negative |
| BuyScenario.BuyHousePriceSteps | app.py:85-108 | in any history that records the months faithfully, `house_price[i+1] == house_price[i] * mhp_growth` |
| BuyScenario.BuyPortfolioSteps | app.py:86-102 | in any history that records the months faithfully, `investment_portfolio[i+1] >= investment_portfolio[i] * mi_return` |
| BuyScenario.BuyWorkedExample | app.py:64-87 | with savings 73000, price 430000 and a 10% deposit, the run starts with a 43000 deposit, 387000 mortgage and 360 entries, and month 0 records portfolio 30000, house price 430000 and net wealth 73000 |
| RentScenario.RentHistoryOf | app.py:161-167 | after n months each of the three history lists holds n entries |
| RentScenario.RentFlowsAt | app.py:155-181 | the running income, expenses, rent and house price at the start of month k, each updated by its `*=` once per month; it has no contract of its own, and RentFlowsNext and RentGrowthAt state its properties |
| RentScenario.RentSurplus | app.py:172 | `monthly_disposable` before the clamp: income minus expenses and rent; it has no contract of its own, and RentPortfolioNext states its properties |
| RentScenario.RentPortfolioAt | app.py:155-176 | the running `investment_portfolio` at the start of month k, starting from the whole of the savings; it has no contract of its own, and RentPortfolioNext, RentPortfolioCompounds and RentPortfolioNonNegative state its properties |
| RentScenario.RentStopOf | app.py:169-170 | the latch `stop_month` after n months; it has no contract of its own, and RentStopIsFirst states its properties |
| RentScenario.RentOutcomeOf | app.py:183 | the returned triple of stop month, final portfolio and history after n months; it has no contract of its own, and RentOutcomeMeaning, RentOutcomeLength and RentFinalIsNextSnapshot state its properties |
| RentScenario.SimulateRent | app.py:112-183 | returns the stop month, final portfolio and history of a `max(0, max_months)`-month projection; the history holds `max_months` months, or none when `max_months <= 0` |
| RentScenario.RentOutcomeLength | app.py:164-167 | a run records `max_months` months when `max_months >= 0`, and none when `max_months <= 0` |
| RentScenario.RentPortfolioNext | app.py:172-176 | the loop's floor and portfolio update, applied to month k's running values, give month k + 1's portfolio |
| RentScenario.RentFlowsNext | app.py:178-181 | the loop's four `*=` updates take month k's income, expenses, rent and house price to month k + 1's |
| RentScenario.RentHistoryNext | app.py:165-167 | the loop's three appends take the history of k months to the history of k + 1 months |
| RentScenario.RentHistoryRecords | app.py:164-167 | entry i of every list is month i's snapshot: `months[i] == i`, and the house price and portfolio at the start of month i |
| RentScenario.RentStopIsFirst | app.py:169-170 | the stop month is the least recorded month with `investment_portfolio[i] >= house_price[i]`; it is None exactly when no recorded month has that |
| RentScenario.RentOutcomeMeaning | app.py:161-170 | the returned history and stop month together satisfy both statements above |
| RentScenario.RentFinalIsNextSnapshot | app.py:176-183 | the returned final portfolio is the value a run one month longer records for month `max_months` |
| RentScenario.RentMonthZero | app.py:155-167 | month 0 records the whole of `initial_savings` as the portfolio and `property_price` as the house price |
| RentScenario.RentFlowsCompound | app.py:155-181 | income, expenses, rent and house price each compound independently from their starting values |
| RentScenario.RentGrowthAt | app.py:178-181 | at month k each of the four is its starting value times its monthly multiplier to the k |
| RentScenario.RentPortfolioCompounds | app.py:172-176 | the portfolio is always at least the initial savings compounded at the investment return |
| RentScenario.RentPortfolioNonNegative | app.py:155-176 | with non-negative savings and a positive return multiplier, no month's portfolio is negative |
| RentScenario.RentHousePriceSteps | app.py:166-181 | in any history that records the months faithfully, `house_price[i+1] == house_price[i] * mhp_growth` |
| RentScenario.RentPortfolioSteps | app.py:167-176 | in any history that records the months faithfully, `investment_portfolio[i+1] >= investment_portfolio[i] * mi_return` |
| RentScenario.RentWorkedExample | app.py:155-167 | with savings 73000 and price 430000, the run records 360 entries, and month 0 holds portfolio 73000 and house price 430000 |
| Duration.DurationParts | app.py:185-187 | the years and months satisfy `0 <= months < 12` and `12 * years + months == total` |
| Duration.DurationPartsUnique | app.py:186-187 | any years and months with `0 <= months < 12` that add back up to the total are the ones `//` and `%` return |
| Duration.NatToDecimal | app.py:188 | a month count renders as a non-empty string of digits, which starts with `0` only for zero |
| Duration.NatToDecimalRoundTrip | app.py:188 | reading the rendered digits back gives the number |
| Duration.IntToDecimal | app.py:188 | an integer renders as non-empty text without spaces |
| Duration.IntToDecimalRoundTrip | app.py:188 | reading the rendered integer back, sign included, gives the integer |
| Duration.SplitDurationOf | app.py:188 | text of the form `{years} years, {months} months` splits back into its two numbers' texts |
| Duration.FormatDuration | app.py:185-188 | the text is `"{years} years, {months} months"` for the split of the month count; it has no contract of its own, and DurationRoundTrip, FormatDurationInjective and the worked examples below state its properties |
| Duration.DurationRoundTrip | app.py:185-188 | reading the formatted duration back gives the month count it was made from |
| Duration.FormatDurationInjective | app.py:185-188 | two different month counts never render the same text |
| Duration.DurationPartsExamples | app.py:186-187 | 0 splits into (0, 0), 13 into (1, 1) and 360 into (30, 0) |
| Duration.FormatDurationOfZero | app.py:185-188 | 0 renders as `0 years, 0 months` |
| Duration.FormatDurationExamples | app.py:185-188 | 13 renders as `1 years, 1 months` and 360 as `30 years, 0 months` |

## Left out

- The Streamlit page is not modelled: sidebar inputs, percent-to-decimal conversion, buttons and text output (app.py:190-276). It is presentation and I/O.
- The matplotlib chart and its annotations are not modelled (app.py:277-313). They are a foreign library, and they only redraw the series the simulators return.
- The monthly multipliers `(1 + r) ** (1 / 12)` (app.py:57-62 and 149-153) are not computed. Fractional exponentiation has no exact counterpart over `real`, so the multipliers are configuration fields.
- IEEE-754 rounding of Python floats is not modelled; money and rates are exact reals. Contracts that compare computed values, such as the stop-month tests, hold for exact arithmetic.
- SimulateBuy: the `st.error` message shown on a deposit shortfall (app.py:67) is a UI side effect. Only the `None` result is modelled.
- `mortgage_term_years` (app.py:9) is accepted but never used by the code, so the configuration does not carry it.
- No cumulative-spend or crossover logic appears in app.py:7-188, so none is modelled.
- The `max_months=360` default (app.py:11, 115) is not modelled: `maxMonths` is a required configuration field. Both callers pass `max_months=360` explicitly (app.py:252, 259), so no behaviour is lost.
