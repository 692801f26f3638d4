/** Scenario 2: rent now, keep all savings invested, and buy for cash once
    the portfolio reaches the (growing) property price. */
module RentScenario {
  import opened Wrappers
  import opened Projection

  /** The inputs of one rent projection. The growth fields are MONTHLY
      multipliers, (1 + annual rate)^(1/12), computed by the caller. */
  datatype RentConfig = RentConfig(
    initialSavings: real,
    monthlyIncome: real,
    monthlyExpenses: real,
    incomeGrowth: real,
    expenseGrowth: real,
    investReturn: real,
    propertyPrice: real,
    monthlyRent: real,
    rentGrowth: real,
    housePriceGrowth: real,
    maxMonths: int)

  // ---------------------------------------------------------------------
  // The projection month by month, as functions of the month index
  // ---------------------------------------------------------------------

  /** The quantities that grow by a fixed multiplier every month. */
  datatype RentFlows = RentFlows(
    income: real,
    expenses: real,
    rent: real,
    housePrice: real)

  /** Growth at the end of a month, ready for the next one. */
  function GrowRentFlows(c: RentConfig, f: RentFlows): RentFlows {
    RentFlows(f.income * c.incomeGrowth,
              f.expenses * c.expenseGrowth,
              f.rent * c.rentGrowth,
              f.housePrice * c.housePriceGrowth)
  }

  /** Income, expenses, rent and house price at the start of month k. */
  function RentFlowsAt(c: RentConfig, k: nat): RentFlows {
    if k == 0 then RentFlows(c.monthlyIncome, c.monthlyExpenses, c.monthlyRent, c.propertyPrice)
    else GrowRentFlows(c, RentFlowsAt(c, k - 1))
  }

  /** What is left of a month's income after expenses and rent; may be negative. */
  function RentSurplus(f: RentFlows): real {
    f.income - f.expenses - f.rent
  }

  /** The surplus of every month, as a series indexed by the month. */
  function RentSurplusSeries(c: RentConfig): nat -> real {
    (j: nat) => RentSurplus(RentFlowsAt(c, j))
  }

  /** The portfolio at the start of month k: all the savings, then each month
      grown by the investment return plus that month's surplus floored at zero. */
  function RentPortfolioAt(c: RentConfig, k: nat): real {
    Invested(c.initialSavings, c.investReturn, RentSurplusSeries(c), k)
  }

  /** The recorded history: three parallel lists, one entry per month. */
  datatype RentHistory = RentHistory(
    months: seq<nat>,
    housePrice: seq<real>,
    investmentPortfolio: seq<real>)

  /** The series each history list samples, month by month. */
  function RentHousePriceSeries(c: RentConfig): nat -> real {
    (j: nat) => RentFlowsAt(c, j).housePrice
  }

  function RentPortfolioSeries(c: RentConfig): nat -> real {
    (j: nat) => RentPortfolioAt(c, j)
  }

  /** The history after n months, one start-of-month snapshot appended per month. */
  function RentHistoryOf(c: RentConfig, n: nat): (h: RentHistory)
    ensures |h.months| == n && |h.housePrice| == n && |h.investmentPortfolio| == n
  {
    RentHistory(Recorded(MonthIndex(), n),
                Recorded(RentHousePriceSeries(c), n),
                Recorded(RentPortfolioSeries(c), n))
  }

  /** The stop month after n months of the latch: the first month so far
      whose starting portfolio covered that month's property price. */
  function RentStopOf(c: RentConfig, n: nat): Option<nat> {
    if n == 0 then None
    else
      var stop := RentStopOf(c, n - 1);
      if stop.None? && RentPortfolioAt(c, n - 1) >= RentFlowsAt(c, n - 1).housePrice then Some(n - 1) else stop
  }

  datatype RentOutcome = RentOutcome(stopMonth: Option<nat>, finalPortfolio: real, history: RentHistory)

  /** What a run of n months returns. */
  function RentOutcomeOf(c: RentConfig, n: nat): RentOutcome {
    RentOutcome(RentStopOf(c, n), RentPortfolioAt(c, n), RentHistoryOf(c, n))
  }

  // ---------------------------------------------------------------------
  // One month ahead, in the form the simulation loop uses
  // ---------------------------------------------------------------------

  /** The growth recursion one month at a time, as an equation. */
  lemma RentFlowsUnfold(c: RentConfig, k: nat)
    requires k > 0
    ensures RentFlowsAt(c, k) == GrowRentFlows(c, RentFlowsAt(c, k - 1))
  {
  }

  /** The surplus the loop computes from its running values is month k's surplus. */
  lemma RentSurplusNext(c: RentConfig, k: nat, income: real, expenses: real, rent: real, housePrice: real)
    requires RentFlows(income, expenses, rent, housePrice) == RentFlowsAt(c, k)
    ensures income - expenses - rent == RentSurplusSeries(c)(k)
  {
  }

  /** Investing month k's surplus takes month k's portfolio to month k + 1's. */
  lemma RentInvestNext(c: RentConfig, k: nat, portfolio: real, surplus: real)
    requires portfolio == RentPortfolioAt(c, k)
    requires surplus == RentSurplusSeries(c)(k)
    ensures portfolio * c.investReturn + FloorAtZero(surplus) == RentPortfolioAt(c, k + 1)
  {
    InvestedNext(c.initialSavings, c.investReturn, RentSurplusSeries(c), k, portfolio, surplus);
  }

  /** The loop's portfolio update, written with its running values. */
  lemma RentPortfolioNext(c: RentConfig, k: nat, portfolio: real,
                          income: real, expenses: real, rent: real, housePrice: real)
    requires RentFlows(income, expenses, rent, housePrice) == RentFlowsAt(c, k)
    requires portfolio == RentPortfolioAt(c, k)
    ensures portfolio * c.investReturn + FloorAtZero(income - expenses - rent) == RentPortfolioAt(c, k + 1)
  {
    RentSurplusNext(c, k, income, expenses, rent, housePrice);
    RentInvestNext(c, k, portfolio, income - expenses - rent);
  }

  /** The loop's growth step, written with its running values. */
  lemma RentFlowsNext(c: RentConfig, k: nat, income: real, expenses: real, rent: real, housePrice: real)
    requires RentFlows(income, expenses, rent, housePrice) == RentFlowsAt(c, k)
    ensures RentFlows(income * c.incomeGrowth, expenses * c.expenseGrowth,
                      rent * c.rentGrowth, housePrice * c.housePriceGrowth)
            == RentFlowsAt(c, k + 1)
  {
    RentFlowsUnfold(c, k + 1);
  }

  /** The loop's three appends, written with its running values. */
  lemma RentHistoryNext(c: RentConfig, k: nat, history: RentHistory, housePrice: real, portfolio: real)
    requires history == RentHistoryOf(c, k)
    requires housePrice == RentFlowsAt(c, k).housePrice
    requires portfolio == RentPortfolioAt(c, k)
    ensures RentHistory(history.months + [k], history.housePrice + [housePrice],
                        history.investmentPortfolio + [portfolio])
            == RentHistoryOf(c, k + 1)
  {
    assert housePrice == RentHousePriceSeries(c)(k);
    assert portfolio == RentPortfolioSeries(c)(k);
    RecordedNext(MonthIndex(), k, k);
    RecordedNext(RentHousePriceSeries(c), k, housePrice);
    RecordedNext(RentPortfolioSeries(c), k, portfolio);
  }

  /** The recorded portfolios and property prices gain one entry a month:
      month k's. */
  lemma RentSnapshotsNext(c: RentConfig, k: nat)
    ensures RentHistoryOf(c, k + 1).investmentPortfolio == RentHistoryOf(c, k).investmentPortfolio + [RentPortfolioAt(c, k)]
    ensures RentHistoryOf(c, k + 1).housePrice == RentHistoryOf(c, k).housePrice + [RentFlowsAt(c, k).housePrice]
  {
  }

  /** One more month of the latch. */
  lemma RentStopNext(c: RentConfig, k: nat)
    ensures RentStopOf(c, k + 1)
            == if RentStopOf(c, k).None? && RentPortfolioAt(c, k) >= RentFlowsAt(c, k).housePrice
               then Some(k) else RentStopOf(c, k)
  {
  }

  /** `range(max_months)` records one month per iteration: max_months of
      them, or none when max_months is zero or negative. */
  lemma RentOutcomeLength(c: RentConfig)
    ensures c.maxMonths >= 0 ==> |RentOutcomeOf(c, Horizon(c.maxMonths)).history.months| == c.maxMonths
    ensures c.maxMonths <= 0 ==> RentOutcomeOf(c, Horizon(c.maxMonths)).history.months == []
  {
  }

  // ---------------------------------------------------------------------
  // The simulation
  // ---------------------------------------------------------------------

  /** Runs the rent projection: for each month in turn it records the
      start-of-month snapshot, latches the first month whose portfolio covers
      that month's property price, invests the month's floored surplus and
      grows income, expenses, rent and house price. */
  method SimulateRent(c: RentConfig) returns (r: RentOutcome)
    ensures r == RentOutcomeOf(c, Horizon(c.maxMonths))
    ensures c.maxMonths >= 0 ==> |r.history.months| == c.maxMonths
    ensures c.maxMonths <= 0 ==> r.history.months == []
  {
    var portfolio := c.initialSavings;
    var income := c.monthlyIncome;
    var expenses := c.monthlyExpenses;
    var rent := c.monthlyRent;
    var housePrice := c.propertyPrice;

    var history := RentHistory([], [], []);
    var stopMonth: Option<nat> := None;

    var n := Horizon(c.maxMonths);
    for month := 0 to n
      invariant RentFlows(income, expenses, rent, housePrice) == RentFlowsAt(c, month)
      invariant portfolio == RentPortfolioAt(c, month)
      invariant history == RentHistoryOf(c, month)
      invariant stopMonth == RentStopOf(c, month)
    {
      // Record the start-of-month snapshot.
      RentHistoryNext(c, month, history, housePrice, portfolio);
      history := RentHistory(history.months + [month],
                             history.housePrice + [housePrice],
                             history.investmentPortfolio + [portfolio]);

      // Latch the first month whose portfolio covers the property price.
      RentStopNext(c, month);
      if stopMonth.None? && portfolio >= housePrice {
        stopMonth := Some(month);
      }

      // Cash flows: rent is paid, the rest is invested.
      RentPortfolioNext(c, month, portfolio, income, expenses, rent, housePrice);
      var disposable := FloorAtZero(income - expenses - rent);
      portfolio := portfolio * c.investReturn + disposable;

      // Growth for next month.
      RentFlowsNext(c, month, income, expenses, rent, housePrice);
      income := income * c.incomeGrowth;
      expenses := expenses * c.expenseGrowth;
      rent := rent * c.rentGrowth;
      housePrice := housePrice * c.housePriceGrowth;
    }
    RentOutcomeLength(c);
    return RentOutcome(stopMonth, portfolio, history);
  }

  // ---------------------------------------------------------------------
  // What the returned history and stop month mean
  // ---------------------------------------------------------------------

  /** h holds exactly n entries and entry i is the start-of-month snapshot of
      month i: month index, house price and portfolio. */
  predicate RecordsRentMonths(c: RentConfig, h: RentHistory, n: nat) {
    && |h.months| == n
    && |h.housePrice| == n
    && |h.investmentPortfolio| == n
    && (forall i :: 0 <= i < n ==> h.months[i] == i)
    && (forall i {:trigger h.housePrice[i]} :: 0 <= i < n ==> h.housePrice[i] == RentFlowsAt(c, i).housePrice)
    && (forall i {:trigger h.investmentPortfolio[i]} :: 0 <= i < n ==> h.investmentPortfolio[i] == RentPortfolioAt(c, i))
  }

  /** The appended history has one entry per month, and entry i is month i's
      start-of-month snapshot. */
  lemma RentHistoryRecords(c: RentConfig, n: nat)
    ensures RecordsRentMonths(c, RentHistoryOf(c, n), n)
  {
    RecordedAt(MonthIndex(), n);
    RecordedAt(RentHousePriceSeries(c), n);
    RecordedAt(RentPortfolioSeries(c), n);
  }

  /** The latch returns the first recorded month whose portfolio covers that
      same month's recorded property price, and None exactly when no recorded
      month does. */
  lemma {:induction false} RentStopIsFirst(c: RentConfig, n: nat)
    ensures IsFirstReach(RentHistoryOf(c, n).investmentPortfolio, RentHistoryOf(c, n).housePrice, RentStopOf(c, n))
  {
    if n > 0 {
      var k := n - 1;
      RentStopIsFirst(c, k);
      RentSnapshotsNext(c, k);
      RentStopNext(c, k);
      LatchExtends(RentHistoryOf(c, k).investmentPortfolio, RentHistoryOf(c, k).housePrice, RentStopOf(c, k),
                   RentPortfolioAt(c, k), RentFlowsAt(c, k).housePrice);
    }
  }

  /** Everything a run promises about its history and stop month. */
  lemma RentOutcomeMeaning(c: RentConfig, n: nat)
    ensures RecordsRentMonths(c, RentOutcomeOf(c, n).history, n)
    ensures IsFirstReach(RentOutcomeOf(c, n).history.investmentPortfolio, RentOutcomeOf(c, n).history.housePrice,
                         RentOutcomeOf(c, n).stopMonth)
  {
    RentHistoryRecords(c, n);
    RentStopIsFirst(c, n);
  }

  /** The returned final portfolio is one month past the last snapshot: it is
      what a run one month longer would have recorded for month n. */
  lemma RentFinalIsNextSnapshot(c: RentConfig, n: nat)
    ensures RentOutcomeOf(c, n).finalPortfolio == RentOutcomeOf(c, n + 1).history.investmentPortfolio[n]
  {
    RentSnapshotsNext(c, n);
  }

  // ---------------------------------------------------------------------
  // Properties of the projection
  // ---------------------------------------------------------------------

  /** Month 0 records all the savings as the portfolio and the current
      property price. */
  lemma RentMonthZero(c: RentConfig)
    ensures RentPortfolioAt(c, 0) == c.initialSavings
    ensures RentFlowsAt(c, 0).housePrice == c.propertyPrice
  {
  }

  /** Each of the four quantities compounds on its own, independently of the others. */
  lemma {:induction false} RentFlowsCompound(c: RentConfig, k: nat)
    ensures RentFlowsAt(c, k) == RentFlows(Compounded(c.monthlyIncome, c.incomeGrowth, k),
                                           Compounded(c.monthlyExpenses, c.expenseGrowth, k),
                                           Compounded(c.monthlyRent, c.rentGrowth, k),
                                           Compounded(c.propertyPrice, c.housePriceGrowth, k))
  {
    if k > 0 {
      RentFlowsCompound(c, k - 1);
      RentFlowsUnfold(c, k);
      CompoundedUnfold(c.monthlyIncome, c.incomeGrowth, k);
      CompoundedUnfold(c.monthlyExpenses, c.expenseGrowth, k);
      CompoundedUnfold(c.monthlyRent, c.rentGrowth, k);
      CompoundedUnfold(c.propertyPrice, c.housePriceGrowth, k);
    }
  }

  /** Income, expenses, rent and house price compound geometrically: after k
      months each is its starting value times its multiplier to the k. */
  lemma RentGrowthAt(c: RentConfig, k: nat)
    ensures RentFlowsAt(c, k).housePrice == c.propertyPrice * Pow(c.housePriceGrowth, k)
    ensures RentFlowsAt(c, k).income == c.monthlyIncome * Pow(c.incomeGrowth, k)
    ensures RentFlowsAt(c, k).expenses == c.monthlyExpenses * Pow(c.expenseGrowth, k)
    ensures RentFlowsAt(c, k).rent == c.monthlyRent * Pow(c.rentGrowth, k)
  {
    RentFlowsCompound(c, k);
    CompoundedIsPow(c.propertyPrice, c.housePriceGrowth, k);
    CompoundedIsPow(c.monthlyIncome, c.incomeGrowth, k);
    CompoundedIsPow(c.monthlyExpenses, c.expenseGrowth, k);
    CompoundedIsPow(c.monthlyRent, c.rentGrowth, k);
  }

  /** The portfolio is always at least the initial savings compounded at the
      investment return. */
  lemma RentPortfolioCompounds(c: RentConfig, k: nat)
    requires ValidMultiplier(c.investReturn)
    ensures RentPortfolioAt(c, k) >= Compounded(c.initialSavings, c.investReturn, k)
  {
    InvestedCompounds(c.initialSavings, c.investReturn, RentSurplusSeries(c), k);
  }

  /** With non-negative savings no month's portfolio is negative. */
  lemma RentPortfolioNonNegative(c: RentConfig, k: nat)
    requires ValidMultiplier(c.investReturn)
    requires c.initialSavings >= 0.0
    ensures RentPortfolioAt(c, k) >= 0.0
  {
    InvestedNonNegative(c.initialSavings, c.investReturn, RentSurplusSeries(c), k);
  }

  /** Consecutive snapshots of any faithfully recorded history: the recorded property price grows by
      exactly the monthly multiplier. */
  lemma RentHousePriceSteps(c: RentConfig, h: RentHistory, n: nat, i: nat)
    requires RecordsRentMonths(c, h, n)
    requires 0 < i < n
    ensures h.housePrice[i] == h.housePrice[i - 1] * c.housePriceGrowth
  {
    RentFlowsUnfold(c, i);
  }

  /** Consecutive snapshots of any faithfully recorded history: the recorded portfolio grows by at
      least the investment return, since a shortfall is never drawn from it. */
  lemma RentPortfolioSteps(c: RentConfig, h: RentHistory, n: nat, i: nat)
    requires RecordsRentMonths(c, h, n)
    requires 0 < i < n
    ensures NotDrawn(h.investmentPortfolio[i - 1], h.investmentPortfolio[i], c.investReturn)
  {
    InvestedNeverDrawn(c.initialSavings, c.investReturn, RentSurplusSeries(c), i);
  }

  /** The worked scenario: savings 73000 and a 430000 property. The run records
      360 months and month 0 holds all 73000 of savings against a 430000
      property price, whatever the monthly multipliers are. */
  lemma RentWorkedExample(incomeGrowth: real, expenseGrowth: real, investReturn: real,
                          rentGrowth: real, housePriceGrowth: real)
    ensures var c := RentConfig(73000.0, 6500.0, 3000.0, incomeGrowth, expenseGrowth, investReturn,
                                430000.0, 1995.0, rentGrowth, housePriceGrowth, 360);
            && |RentHistoryOf(c, Horizon(c.maxMonths)).investmentPortfolio| == 360
            && RentHistoryOf(c, 360).investmentPortfolio[0] == 73000.0
            && RentHistoryOf(c, 360).housePrice[0] == 430000.0
  {
    var c := RentConfig(73000.0, 6500.0, 3000.0, incomeGrowth, expenseGrowth, investReturn,
                        430000.0, 1995.0, rentGrowth, housePriceGrowth, 360);
    RentHistoryRecords(c, 360);
  }
}
