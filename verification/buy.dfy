/** Scenario 1: buy now with a deposit and an interest-only mortgage on the
    rest, investing whatever income is left each month. */
module BuyScenario {
  import opened Wrappers
  import opened Projection

  /** The inputs of one buy projection. The growth fields are MONTHLY
      multipliers, (1 + annual rate)^(1/12), computed by the caller;
      the mortgage rate stays annual and is charged as rate / 12 a month. */
  datatype BuyConfig = BuyConfig(
    initialSavings: real,
    monthlyIncome: real,
    monthlyExpenses: real,
    incomeGrowth: real,
    expenseGrowth: real,
    investReturn: real,
    propertyPrice: real,
    mortgageInterestRate: real,
    depositFraction: real,
    ownerCostInitial: real,
    ownerCostGrowth: real,
    housePriceGrowth: real,
    maxMonths: int)

  /** The deposit paid up front: a fraction of the property price. */
  function Deposit(c: BuyConfig): real {
    c.depositFraction * c.propertyPrice
  }

  /** The mortgage principal; never amortised, so it is the same every month. */
  function OutstandingMortgage(c: BuyConfig): real {
    c.propertyPrice * (1.0 - c.depositFraction)
  }

  /** Simple monthly interest on the full principal (not compounded). */
  function InterestPayment(c: BuyConfig): real {
    OutstandingMortgage(c) * (c.mortgageInterestRate / 12.0)
  }

  /** The deposit and the mortgage together pay exactly the property price. */
  lemma DepositAndMortgageCoverPrice(c: BuyConfig)
    ensures Deposit(c) + OutstandingMortgage(c) == c.propertyPrice
  {
  }

  /** For a deposit fraction between 0 and 1, neither the deposit nor the
      mortgage is negative or more than the property price. */
  lemma DepositAndMortgageBounded(c: BuyConfig)
    requires 0.0 <= c.depositFraction <= 1.0 && c.propertyPrice >= 0.0
    ensures 0.0 <= Deposit(c) <= c.propertyPrice
    ensures 0.0 <= OutstandingMortgage(c) <= c.propertyPrice
  {
    var f, p := c.depositFraction, c.propertyPrice;
    MulMonotone(f, 1.0, p);
    MulMonotone(0.0, f, p);
    assert 0.0 <= f * p <= p;
    assert Deposit(c) == f * p;
    DepositAndMortgageCoverPrice(c);
  }

  // ---------------------------------------------------------------------
  // The projection month by month, as functions of the month index
  // ---------------------------------------------------------------------

  /** The quantities that grow by a fixed multiplier every month, whatever
      happens to the portfolio. */
  datatype BuyFlows = BuyFlows(
    income: real,
    expenses: real,
    ownerCost: real,
    housePrice: real)

  /** Growth at the end of a month, ready for the next one. */
  function GrowBuyFlows(c: BuyConfig, f: BuyFlows): BuyFlows {
    BuyFlows(f.income * c.incomeGrowth,
             f.expenses * c.expenseGrowth,
             f.ownerCost * c.ownerCostGrowth,
             f.housePrice * c.housePriceGrowth)
  }

  /** Income, expenses, owner cost and house price at the start of month k. */
  function BuyFlowsAt(c: BuyConfig, k: nat): BuyFlows {
    if k == 0 then BuyFlows(c.monthlyIncome, c.monthlyExpenses, c.ownerCostInitial, c.propertyPrice)
    else GrowBuyFlows(c, BuyFlowsAt(c, k - 1))
  }

  /** What is left of a month's income after expenses, mortgage interest
      and owner cost; may be negative. */
  function BuySurplus(c: BuyConfig, f: BuyFlows): real {
    f.income - f.expenses - InterestPayment(c) - f.ownerCost
  }

  /** The surplus of every month, as a series indexed by the month. */
  function BuySurplusSeries(c: BuyConfig): nat -> real {
    (j: nat) => BuySurplus(c, BuyFlowsAt(c, j))
  }

  /** The portfolio at the start of month k: the savings left after the
      deposit, then each month grown by the investment return plus that
      month's surplus floored at zero. */
  function BuyPortfolioAt(c: BuyConfig, k: nat): real {
    Invested(c.initialSavings - Deposit(c), c.investReturn, BuySurplusSeries(c), k)
  }

  /** Net wealth recorded for a month: home equity plus investments. */
  function NetWealth(c: BuyConfig, housePrice: real, portfolio: real): real {
    (housePrice - OutstandingMortgage(c)) + portfolio
  }

  /** The recorded history: four parallel lists, one entry per month. */
  datatype BuyHistory = BuyHistory(
    months: seq<nat>,
    housePrice: seq<real>,
    investmentPortfolio: seq<real>,
    netWealth: seq<real>)

  /** The series each history list samples, month by month. */
  function BuyHousePriceSeries(c: BuyConfig): nat -> real {
    (j: nat) => BuyFlowsAt(c, j).housePrice
  }

  function BuyPortfolioSeries(c: BuyConfig): nat -> real {
    (j: nat) => BuyPortfolioAt(c, j)
  }

  function BuyNetWealthSeries(c: BuyConfig): nat -> real {
    (j: nat) => NetWealth(c, BuyFlowsAt(c, j).housePrice, BuyPortfolioAt(c, j))
  }

  /** The history after n months, one start-of-month snapshot appended per month. */
  function BuyHistoryOf(c: BuyConfig, n: nat): (h: BuyHistory)
    ensures |h.months| == n && |h.housePrice| == n
    ensures |h.investmentPortfolio| == n && |h.netWealth| == n
  {
    BuyHistory(Recorded(MonthIndex(), n),
               Recorded(BuyHousePriceSeries(c), n),
               Recorded(BuyPortfolioSeries(c), n),
               Recorded(BuyNetWealthSeries(c), n))
  }

  /** The stop month after n months of the latch: the first month so far
      whose starting portfolio covered the outstanding mortgage. */
  function BuyStopOf(c: BuyConfig, n: nat): Option<nat> {
    if n == 0 then None
    else
      var stop := BuyStopOf(c, n - 1);
      if stop.None? && BuyPortfolioAt(c, n - 1) >= OutstandingMortgage(c) then Some(n - 1) else stop
  }

  datatype BuyOutcome = BuyOutcome(stopMonth: Option<nat>, finalPortfolio: real, history: BuyHistory)

  /** What a successful run of n months returns. */
  function BuyOutcomeOf(c: BuyConfig, n: nat): BuyOutcome {
    BuyOutcome(BuyStopOf(c, n), BuyPortfolioAt(c, n), BuyHistoryOf(c, n))
  }

  // ---------------------------------------------------------------------
  // One month ahead, in the form the simulation loop uses
  // ---------------------------------------------------------------------

  /** The growth recursion one month at a time, as an equation. */
  lemma BuyFlowsUnfold(c: BuyConfig, k: nat)
    requires k > 0
    ensures BuyFlowsAt(c, k) == GrowBuyFlows(c, BuyFlowsAt(c, k - 1))
  {
  }

  /** The surplus the loop computes from its running values is month k's surplus. */
  lemma BuySurplusNext(c: BuyConfig, k: nat, income: real, expenses: real, ownerCost: real, housePrice: real)
    requires BuyFlows(income, expenses, ownerCost, housePrice) == BuyFlowsAt(c, k)
    ensures income - expenses - InterestPayment(c) - ownerCost == BuySurplusSeries(c)(k)
  {
  }

  /** Investing month k's surplus takes month k's portfolio to month k + 1's. */
  lemma BuyInvestNext(c: BuyConfig, k: nat, portfolio: real, surplus: real)
    requires portfolio == BuyPortfolioAt(c, k)
    requires surplus == BuySurplusSeries(c)(k)
    ensures portfolio * c.investReturn + FloorAtZero(surplus) == BuyPortfolioAt(c, k + 1)
  {
    InvestedNext(c.initialSavings - Deposit(c), c.investReturn, BuySurplusSeries(c), k, portfolio, surplus);
  }

  /** The loop's portfolio update, written with its running values. */
  lemma BuyPortfolioNext(c: BuyConfig, k: nat, portfolio: real,
                         income: real, expenses: real, ownerCost: real, housePrice: real)
    requires BuyFlows(income, expenses, ownerCost, housePrice) == BuyFlowsAt(c, k)
    requires portfolio == BuyPortfolioAt(c, k)
    ensures portfolio * c.investReturn + FloorAtZero(income - expenses - InterestPayment(c) - ownerCost) == BuyPortfolioAt(c, k + 1)
  {
    BuySurplusNext(c, k, income, expenses, ownerCost, housePrice);
    BuyInvestNext(c, k, portfolio, income - expenses - InterestPayment(c) - ownerCost);
  }

  /** The loop's growth step, written with its running values. */
  lemma BuyFlowsNext(c: BuyConfig, k: nat, income: real, expenses: real, ownerCost: real, housePrice: real)
    requires BuyFlows(income, expenses, ownerCost, housePrice) == BuyFlowsAt(c, k)
    ensures BuyFlows(income * c.incomeGrowth, expenses * c.expenseGrowth,
                     ownerCost * c.ownerCostGrowth, housePrice * c.housePriceGrowth)
            == BuyFlowsAt(c, k + 1)
  {
    BuyFlowsUnfold(c, k + 1);
  }

  /** The loop's four appends, written with its running values. */
  lemma BuyHistoryNext(c: BuyConfig, k: nat, history: BuyHistory, housePrice: real, portfolio: real, netWealth: real)
    requires history == BuyHistoryOf(c, k)
    requires housePrice == BuyFlowsAt(c, k).housePrice
    requires portfolio == BuyPortfolioAt(c, k)
    requires netWealth == NetWealth(c, housePrice, portfolio)
    ensures BuyHistory(history.months + [k], history.housePrice + [housePrice],
                       history.investmentPortfolio + [portfolio], history.netWealth + [netWealth])
            == BuyHistoryOf(c, k + 1)
  {
    assert housePrice == BuyHousePriceSeries(c)(k);
    assert portfolio == BuyPortfolioSeries(c)(k);
    assert netWealth == BuyNetWealthSeries(c)(k);
    RecordedNext(MonthIndex(), k, k);
    RecordedNext(BuyHousePriceSeries(c), k, housePrice);
    RecordedNext(BuyPortfolioSeries(c), k, portfolio);
    RecordedNext(BuyNetWealthSeries(c), k, netWealth);
  }

  /** The recorded portfolios gain one entry a month: month k's portfolio. */
  lemma BuySnapshotsNext(c: BuyConfig, k: nat)
    ensures BuyHistoryOf(c, k + 1).investmentPortfolio == BuyHistoryOf(c, k).investmentPortfolio + [BuyPortfolioAt(c, k)]
  {
  }

  /** One more month of the latch. */
  lemma BuyStopNext(c: BuyConfig, k: nat)
    ensures BuyStopOf(c, k + 1)
            == if BuyStopOf(c, k).None? && BuyPortfolioAt(c, k) >= OutstandingMortgage(c)
               then Some(k) else BuyStopOf(c, k)
  {
  }

  /** `range(max_months)` records one month per iteration: max_months of
      them, or none when max_months is zero or negative. */
  lemma BuyOutcomeLength(c: BuyConfig)
    ensures c.maxMonths >= 0 ==> |BuyOutcomeOf(c, Horizon(c.maxMonths)).history.months| == c.maxMonths
    ensures c.maxMonths <= 0 ==> BuyOutcomeOf(c, Horizon(c.maxMonths)).history.months == []
  {
  }

  // ---------------------------------------------------------------------
  // The simulation
  // ---------------------------------------------------------------------

  /** Runs the buy projection. It refuses to start (None) exactly when the
      savings do not cover the deposit; otherwise, for each month in turn,
      it records the start-of-month snapshot, latches the first month whose
      portfolio covers the outstanding mortgage, invests the month's floored
      surplus and grows income, expenses, owner cost and house price. */
  method SimulateBuy(c: BuyConfig) returns (r: Option<BuyOutcome>)
    ensures r.None? <==> c.initialSavings < Deposit(c)
    ensures r.Some? ==> r.value == BuyOutcomeOf(c, Horizon(c.maxMonths))
  {
    var depositAmount := Deposit(c);
    if c.initialSavings < depositAmount {
      return None;
    }
    var portfolio := c.initialSavings - depositAmount;
    var mortgage := OutstandingMortgage(c);

    var income := c.monthlyIncome;
    var expenses := c.monthlyExpenses;
    var ownerCost := c.ownerCostInitial;
    var housePrice := c.propertyPrice;

    var history := BuyHistory([], [], [], []);
    var stopMonth: Option<nat> := None;

    var n := Horizon(c.maxMonths);
    for month := 0 to n
      invariant BuyFlows(income, expenses, ownerCost, housePrice) == BuyFlowsAt(c, month)
      invariant portfolio == BuyPortfolioAt(c, month)
      invariant history == BuyHistoryOf(c, month)
      invariant stopMonth == BuyStopOf(c, month)
    {
      // Record the start-of-month snapshot.
      var netWealth := NetWealth(c, housePrice, portfolio);
      BuyHistoryNext(c, month, history, housePrice, portfolio, netWealth);
      history := BuyHistory(history.months + [month],
                            history.housePrice + [housePrice],
                            history.investmentPortfolio + [portfolio],
                            history.netWealth + [netWealth]);

      // Latch the first month whose portfolio covers the mortgage.
      BuyStopNext(c, month);
      if stopMonth.None? && portfolio >= mortgage {
        stopMonth := Some(month);
      }

      // Cash flows: interest and owner cost are paid, the rest is invested.
      BuyPortfolioNext(c, month, portfolio, income, expenses, ownerCost, housePrice);
      var interestPayment := InterestPayment(c);
      var disposable := FloorAtZero(income - expenses - interestPayment - ownerCost);
      portfolio := portfolio * c.investReturn + disposable;

      // Growth for next month.
      BuyFlowsNext(c, month, income, expenses, ownerCost, housePrice);
      income := income * c.incomeGrowth;
      expenses := expenses * c.expenseGrowth;
      ownerCost := ownerCost * c.ownerCostGrowth;
      housePrice := housePrice * c.housePriceGrowth;
    }
    return Some(BuyOutcome(stopMonth, portfolio, history));
  }

  // ---------------------------------------------------------------------
  // What the returned history and stop month mean
  // ---------------------------------------------------------------------

  /** h holds exactly n entries and entry i is the start-of-month snapshot of
      month i: month index, house price, portfolio, and net wealth computed
      with the one unchanging mortgage principal. */
  predicate RecordsBuyMonths(c: BuyConfig, h: BuyHistory, n: nat) {
    && |h.months| == n
    && |h.housePrice| == n
    && |h.investmentPortfolio| == n
    && |h.netWealth| == n
    && (forall i :: 0 <= i < n ==> h.months[i] == i)
    && (forall i {:trigger h.housePrice[i]} :: 0 <= i < n ==> h.housePrice[i] == BuyFlowsAt(c, i).housePrice)
    && (forall i {:trigger h.investmentPortfolio[i]} :: 0 <= i < n ==> h.investmentPortfolio[i] == BuyPortfolioAt(c, i))
    && (forall i {:trigger h.netWealth[i]} :: 0 <= i < n ==>
          h.netWealth[i] == NetWealth(c, h.housePrice[i], h.investmentPortfolio[i]))
  }

  /** The appended history has one entry per month, and entry i is month i's
      start-of-month snapshot. */
  lemma BuyHistoryRecords(c: BuyConfig, n: nat)
    ensures RecordsBuyMonths(c, BuyHistoryOf(c, n), n)
  {
    RecordedAt(MonthIndex(), n);
    RecordedAt(BuyHousePriceSeries(c), n);
    RecordedAt(BuyPortfolioSeries(c), n);
    RecordedAt(BuyNetWealthSeries(c), n);
  }

  /** The target the buy portfolio must reach, the same every month. */
  function MortgageTargets(c: BuyConfig, n: nat): seq<real> {
    seq(n, _ => OutstandingMortgage(c))
  }

  /** The latch returns the first recorded month whose portfolio covers the
      outstanding mortgage, and None exactly when no recorded month does. */
  lemma {:induction false} BuyStopIsFirst(c: BuyConfig, n: nat)
    ensures IsFirstReach(BuyHistoryOf(c, n).investmentPortfolio, MortgageTargets(c, n), BuyStopOf(c, n))
  {
    if n > 0 {
      var k := n - 1;
      BuyStopIsFirst(c, k);
      BuySnapshotsNext(c, k);
      BuyStopNext(c, k);
      LatchExtends(BuyHistoryOf(c, k).investmentPortfolio, MortgageTargets(c, k), BuyStopOf(c, k),
                   BuyPortfolioAt(c, k), OutstandingMortgage(c));
      assert MortgageTargets(c, k) + [OutstandingMortgage(c)] == MortgageTargets(c, n);
    }
  }

  /** Everything a successful run promises, as one statement about the result:
      one snapshot per month with the month index, house price, portfolio and
      net wealth of that month, and the first-month-reached stop month. */
  lemma BuyOutcomeMeaning(c: BuyConfig, n: nat)
    ensures RecordsBuyMonths(c, BuyOutcomeOf(c, n).history, n)
    ensures IsFirstReach(BuyOutcomeOf(c, n).history.investmentPortfolio, MortgageTargets(c, n),
                         BuyOutcomeOf(c, n).stopMonth)
  {
    BuyHistoryRecords(c, n);
    BuyStopIsFirst(c, n);
  }

  /** The returned final portfolio is one month past the last snapshot: it is
      what a run one month longer would have recorded for month n. */
  lemma BuyFinalIsNextSnapshot(c: BuyConfig, n: nat)
    ensures BuyOutcomeOf(c, n).finalPortfolio == BuyOutcomeOf(c, n + 1).history.investmentPortfolio[n]
  {
    BuySnapshotsNext(c, n);
  }

  // ---------------------------------------------------------------------
  // Properties of the projection
  // ---------------------------------------------------------------------

  /** Month 0 records the savings left after the deposit, the purchase price,
      and a net wealth equal to the initial savings. */
  lemma BuyMonthZero(c: BuyConfig)
    ensures BuyPortfolioAt(c, 0) == c.initialSavings - Deposit(c)
    ensures BuyFlowsAt(c, 0).housePrice == c.propertyPrice
    ensures NetWealth(c, BuyFlowsAt(c, 0).housePrice, BuyPortfolioAt(c, 0)) == c.initialSavings
  {
  }

  /** Each of the four quantities compounds on its own, independently of the others. */
  lemma {:induction false} BuyFlowsCompound(c: BuyConfig, k: nat)
    ensures BuyFlowsAt(c, k) == BuyFlows(Compounded(c.monthlyIncome, c.incomeGrowth, k),
                                         Compounded(c.monthlyExpenses, c.expenseGrowth, k),
                                         Compounded(c.ownerCostInitial, c.ownerCostGrowth, k),
                                         Compounded(c.propertyPrice, c.housePriceGrowth, k))
  {
    if k > 0 {
      BuyFlowsCompound(c, k - 1);
      BuyFlowsUnfold(c, k);
      CompoundedUnfold(c.monthlyIncome, c.incomeGrowth, k);
      CompoundedUnfold(c.monthlyExpenses, c.expenseGrowth, k);
      CompoundedUnfold(c.ownerCostInitial, c.ownerCostGrowth, k);
      CompoundedUnfold(c.propertyPrice, c.housePriceGrowth, k);
    }
  }

  /** Income, expenses, owner cost and house price compound geometrically:
      after k months each is its starting value times its multiplier to the k. */
  lemma BuyGrowthAt(c: BuyConfig, k: nat)
    ensures BuyFlowsAt(c, k).housePrice == c.propertyPrice * Pow(c.housePriceGrowth, k)
    ensures BuyFlowsAt(c, k).income == c.monthlyIncome * Pow(c.incomeGrowth, k)
    ensures BuyFlowsAt(c, k).expenses == c.monthlyExpenses * Pow(c.expenseGrowth, k)
    ensures BuyFlowsAt(c, k).ownerCost == c.ownerCostInitial * Pow(c.ownerCostGrowth, k)
  {
    BuyFlowsCompound(c, k);
    CompoundedIsPow(c.propertyPrice, c.housePriceGrowth, k);
    CompoundedIsPow(c.monthlyIncome, c.incomeGrowth, k);
    CompoundedIsPow(c.monthlyExpenses, c.expenseGrowth, k);
    CompoundedIsPow(c.ownerCostInitial, c.ownerCostGrowth, k);
  }

  /** Because shortfalls are never drawn from it, the portfolio is always at
      least the post-deposit savings compounded at the investment return. */
  lemma BuyPortfolioCompounds(c: BuyConfig, k: nat)
    requires ValidMultiplier(c.investReturn)
    ensures BuyPortfolioAt(c, k) >= Compounded(c.initialSavings - Deposit(c), c.investReturn, k)
  {
    InvestedCompounds(c.initialSavings - Deposit(c), c.investReturn, BuySurplusSeries(c), k);
  }

  /** Whenever the scenario starts (savings cover the deposit), no month's
      portfolio is negative. */
  lemma BuyPortfolioNonNegative(c: BuyConfig, k: nat)
    requires ValidMultiplier(c.investReturn)
    requires c.initialSavings >= Deposit(c)
    ensures BuyPortfolioAt(c, k) >= 0.0
  {
    InvestedNonNegative(c.initialSavings - Deposit(c), c.investReturn, BuySurplusSeries(c), k);
  }

  /** Consecutive snapshots of any faithfully recorded history: the recorded house price grows by
      exactly the monthly multiplier. */
  lemma BuyHousePriceSteps(c: BuyConfig, h: BuyHistory, n: nat, i: nat)
    requires RecordsBuyMonths(c, h, n)
    requires 0 < i < n
    ensures h.housePrice[i] == h.housePrice[i - 1] * c.housePriceGrowth
  {
    BuyFlowsUnfold(c, i);
  }

  /** Consecutive snapshots of any faithfully recorded history: the recorded portfolio grows by at
      least the investment return, since a shortfall is never drawn from it. */
  lemma BuyPortfolioSteps(c: BuyConfig, h: BuyHistory, n: nat, i: nat)
    requires RecordsBuyMonths(c, h, n)
    requires 0 < i < n
    ensures NotDrawn(h.investmentPortfolio[i - 1], h.investmentPortfolio[i], c.investReturn)
  {
    InvestedNeverDrawn(c.initialSavings - Deposit(c), c.investReturn, BuySurplusSeries(c), i);
  }

  /** The worked scenario: savings 73000 against a 430000 property with a 10%
      deposit. The run starts (deposit 43000), records 360 months, and month 0
      holds a 30000 portfolio against a 387000 mortgage, with net wealth equal
      to the 73000 savings; this holds whatever the monthly multipliers are. */
  lemma BuyWorkedExample(incomeGrowth: real, expenseGrowth: real, investReturn: real,
                         ownerCostGrowth: real, housePriceGrowth: real)
    ensures var c := BuyConfig(73000.0, 6500.0, 3000.0, incomeGrowth, expenseGrowth, investReturn,
                               430000.0, 0.045, 0.10, 200.0, ownerCostGrowth, housePriceGrowth, 360);
            && Deposit(c) == 43000.0
            && c.initialSavings >= Deposit(c)
            && OutstandingMortgage(c) == 387000.0
            && |BuyHistoryOf(c, Horizon(c.maxMonths)).netWealth| == 360
            && BuyHistoryOf(c, 360).investmentPortfolio[0] == 30000.0
            && BuyHistoryOf(c, 360).housePrice[0] == 430000.0
            && BuyHistoryOf(c, 360).netWealth[0] == 73000.0
  {
    var c := BuyConfig(73000.0, 6500.0, 3000.0, incomeGrowth, expenseGrowth, investReturn,
                       430000.0, 0.045, 0.10, 200.0, ownerCostGrowth, housePriceGrowth, 360);
    BuyHistoryRecords(c, 360);
    var h := BuyHistoryOf(c, 360);
    assert h.investmentPortfolio[0] == BuyPortfolioAt(c, 0);
    assert h.housePrice[0] == BuyFlowsAt(c, 0).housePrice;
  }
}
