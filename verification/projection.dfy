/** Pieces shared by the buy and the rent projections: compounding by a
    monthly multiplier, the floor on disposable income, the simulation
    horizon and the first-month-reached latch. */
module Projection {
  import opened Wrappers

  /** A monthly multiplier (1 + r)^(1/12) is positive for every annual rate
      r > -1; the simulators take these multipliers as given. */
  predicate ValidMultiplier(m: real) {
    m > 0.0
  }

  /** The factor a quantity has grown by after k months at multiplier x. */
  function Pow(x: real, k: nat): real {
    if k == 0 then 1.0 else Pow(x, k - 1) * x
  }

  /** A quantity that starts at `start` and is multiplied by `m` at the end
      of every month, as the loops do with `*=`: its value at the start of
      month k. */
  function Compounded(start: real, m: real, k: nat): real {
    if k == 0 then start else Compounded(start, m, k - 1) * m
  }

  lemma CompoundedUnfold(start: real, m: real, k: nat)
    requires k > 0
    ensures Compounded(start, m, k) == Compounded(start, m, k - 1) * m
  {
  }

  /** Compounding one more month: a quantity at a * x^k grown by x is a * x^(k+1). */
  lemma CompoundStep(a: real, x: real, k: nat)
    ensures (a * Pow(x, k)) * x == a * Pow(x, k + 1)
  {
    assert Pow(x, k + 1) == Pow(x, k) * x;
  }

  /** Month-by-month compounding is geometric growth: after k months the
      quantity is its start times the multiplier to the k. */
  lemma {:induction false} CompoundedIsPow(start: real, m: real, k: nat)
    ensures Compounded(start, m, k) == start * Pow(m, k)
  {
    if k > 0 {
      CompoundedIsPow(start, m, k - 1);
      CompoundedUnfold(start, m, k);
      CompoundStep(start, m, k - 1);
    }
  }

  /** Growing by a non-negative multiplier keeps the order of two amounts. */
  lemma MulMonotone(a: real, b: real, x: real)
    requires a <= b && x >= 0.0
    ensures a * x <= b * x
  {
  }

  /** Compounding a non-negative start by a valid multiplier never goes negative. */
  lemma {:induction false} CompoundedNonNegative(start: real, m: real, k: nat)
    requires start >= 0.0 && ValidMultiplier(m)
    ensures Compounded(start, m, k) >= 0.0
  {
    if k > 0 {
      CompoundedNonNegative(start, m, k - 1);
      CompoundedUnfold(start, m, k);
      MulMonotone(0.0, Compounded(start, m, k - 1), m);
    }
  }

  /** Number of months `for month in range(max_months)` runs: none at all
      when max_months is zero or negative. */
  function Horizon(maxMonths: int): nat {
    if maxMonths < 0 then 0 else maxMonths
  }

  /** Disposable income after a negative surplus is replaced by zero: the
      larger of the surplus and zero. */
  function FloorAtZero(surplus: real): (d: real)
    ensures d >= 0.0 && d >= surplus
    ensures d == 0.0 || d == surplus
  {
    if surplus < 0.0 then 0.0 else surplus
  }

  /** A portfolio that starts at `start` and at the end of every month j
      grows by the return multiplier r and takes in surplus(j) floored at
      zero: its value at the start of month k. A month with a shortfall adds
      nothing and draws nothing. */
  function Invested(start: real, r: real, surplus: nat -> real, k: nat): real {
    if k == 0 then start else Invested(start, r, surplus, k - 1) * r + FloorAtZero(surplus(k - 1))
  }

  lemma InvestedUnfold(start: real, r: real, surplus: nat -> real, k: nat)
    requires k > 0
    ensures Invested(start, r, surplus, k) == Invested(start, r, surplus, k - 1) * r + FloorAtZero(surplus(k - 1))
  {
  }

  /** One month of investing: the portfolio only grows by the return when
      the month's surplus is negative, and grows and takes in the whole
      surplus otherwise. */
  lemma InvestedStep(start: real, r: real, surplus: nat -> real, k: nat)
    requires k > 0
    ensures surplus(k - 1) < 0.0 ==> Invested(start, r, surplus, k) == Invested(start, r, surplus, k - 1) * r
    ensures surplus(k - 1) >= 0.0 ==>
              Invested(start, r, surplus, k) == Invested(start, r, surplus, k - 1) * r + surplus(k - 1)
  {
    InvestedUnfold(start, r, surplus, k);
  }

  /** `after` is at least `before` grown by the multiplier m: nothing was
      taken out in between. */
  predicate NotDrawn(before: real, after: real, m: real) {
    after >= before * m
  }

  /** A shortfall is never drawn from the portfolio. */
  lemma InvestedNeverDrawn(start: real, r: real, surplus: nat -> real, k: nat)
    requires k > 0
    ensures NotDrawn(Invested(start, r, surplus, k - 1), Invested(start, r, surplus, k), r)
  {
    InvestedUnfold(start, r, surplus, k);
  }

  /** Whatever the surpluses, the portfolio is at least its start compounded
      at the return multiplier. */
  lemma {:induction false} InvestedCompounds(start: real, r: real, surplus: nat -> real, k: nat)
    requires ValidMultiplier(r)
    ensures Invested(start, r, surplus, k) >= Compounded(start, r, k)
  {
    if k > 0 {
      InvestedCompounds(start, r, surplus, k - 1);
      InvestedNeverDrawn(start, r, surplus, k);
      CompoundedUnfold(start, r, k);
      MulMonotone(Compounded(start, r, k - 1), Invested(start, r, surplus, k - 1), r);
    }
  }

  /** A non-negative start never turns into a negative portfolio. */
  lemma InvestedNonNegative(start: real, r: real, surplus: nat -> real, k: nat)
    requires start >= 0.0 && ValidMultiplier(r)
    ensures Invested(start, r, surplus, k) >= 0.0
  {
    InvestedCompounds(start, r, surplus, k);
    CompoundedNonNegative(start, r, k);
  }

  /** The loop's update, `portfolio * r + floor(surplus)`, applied to month
      k's portfolio and surplus gives month k + 1's portfolio. */
  lemma InvestedNext(start: real, r: real, surplus: nat -> real, k: nat, portfolio: real, s: real)
    requires portfolio == Invested(start, r, surplus, k)
    requires s == surplus(k)
    ensures portfolio * r + FloorAtZero(s) == Invested(start, r, surplus, k + 1)
  {
    InvestedUnfold(start, r, surplus, k + 1);
  }

  /** The list a loop has built after n months when it appends f(month)
      every month: the series' first n values, in month order. */
  function Recorded<T>(f: nat -> T, n: nat): (s: seq<T>)
    ensures |s| == n
  {
    if n == 0 then [] else Recorded(f, n - 1) + [f(n - 1)]
  }

  /** One more month: appending the series' next value extends the list. */
  lemma RecordedNext<T>(f: nat -> T, n: nat, x: T)
    requires x == f(n)
    ensures Recorded(f, n) + [x] == Recorded(f, n + 1)
  {
  }

  /** The series of month numbers 0, 1, 2, ... */
  function MonthIndex(): nat -> nat {
    (j: nat) => j
  }

  /** Entry i of the list is the series' value for month i. */
  lemma {:induction false} RecordedAt<T>(f: nat -> T, n: nat)
    ensures forall i :: 0 <= i < n ==> Recorded(f, n)[i] == f(i)
  {
    if n > 0 {
      RecordedAt(f, n - 1);
      assert forall i :: 0 <= i < n - 1 ==> Recorded(f, n)[i] == Recorded(f, n - 1)[i];
    }
  }

  /** `stop` is the first recorded month whose portfolio had reached that
      month's target, or None when no recorded month had. */
  predicate IsFirstReach(portfolio: seq<real>, target: seq<real>, stop: Option<nat>)
    requires |portfolio| == |target|
  {
    match stop
    case None => forall i :: 0 <= i < |portfolio| ==> portfolio[i] < target[i]
    case Some(k) =>
      && k < |portfolio|
      && portfolio[k] >= target[k]
      && forall j :: 0 <= j < k ==> portfolio[j] < target[j]
  }

  /** Recording one more month keeps the latch right: an existing stop month
      stays, otherwise the new month becomes the stop month exactly when its
      portfolio reaches its target. */
  lemma {:induction false} LatchExtends(portfolio: seq<real>, target: seq<real>, stop: Option<nat>,
                                        p: real, t: real)
    requires |portfolio| == |target|
    requires IsFirstReach(portfolio, target, stop)
    ensures IsFirstReach(portfolio + [p], target + [t],
                         if stop.None? && p >= t then Some(|portfolio|) else stop)
  {
    var ps, ts := portfolio + [p], target + [t];
    var n := |portfolio|;
    assert forall i :: 0 <= i < n ==> ps[i] == portfolio[i] && ts[i] == target[i];
    assert ps[n] == p && ts[n] == t;
  }

  /** The first-reach condition determines the stop month: two stop months
      that both satisfy it over the same series are equal. This is the
      brute-force re-scan of a returned series agreeing with the latch. */
  lemma {:induction false} FirstReachUnique(portfolio: seq<real>, target: seq<real>,
                                            s1: Option<nat>, s2: Option<nat>)
    requires |portfolio| == |target|
    requires IsFirstReach(portfolio, target, s1)
    requires IsFirstReach(portfolio, target, s2)
    ensures s1 == s2
  {
  }
}
