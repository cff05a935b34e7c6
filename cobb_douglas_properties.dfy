/**
 * What the closed-form allocations of the Cobb-Douglas function promise:
 * that both solvers spend the budget exactly when the exponents sum to 1,
 * that a NaN price zeroes the bundle, that the fixed-price solution is
 * unchanged by a common
 * rescaling of prices and budget, and that the shifted-rational solution with
 * no shift is the fixed-price one.
 */
module CobbDouglasProperties {
  import opened Doubles
  import opened LinkedMaps
  import opened Sums
  import opened Prices
  import opened CobbDouglas

  /** Money paid for a bundle: the sum over the keys of unit price times amount. */
  function Spending<T>(keys: seq<T>, prices: map<T, Double>, bundle: map<T, Double>): (r: real)
    requires forall t :: t in keys ==> t in prices && t in bundle && prices[t].Num? && bundle[t].Num?
  {
    Total(keys, map t | t in keys :: prices[t].v * bundle[t].v)
  }

  /** The finite c(-1) coefficients of the configs. */
  function CoefficientsMinus1<T>(configs: map<T, PriceFunctionConfig>): (r: map<T, real>)
    requires forall t :: t in configs ==> configs[t].coefficientXPowerMinus1.Num?
    ensures r.Keys == configs.Keys
  {
    map t | t in configs :: configs[t].coefficientXPowerMinus1.v
  }

  // ----- the shared allocation step -----

  /** With nothing to spend every input gets 0, whatever its price (NaN and infinite ones included). */
  lemma AllocationOfNothing<T>(exps: map<T, real>, prices: map<T, Double>, flagged: bool)
    requires forall t :: t in exps ==> t in prices
    ensures forall t :: t in exps ==> Allocation(exps, Num(0.0), prices, flagged)[t] == Num(0.0)
  {
    forall t | t in exps
      ensures Allocation(exps, Num(0.0), prices, flagged)[t] == Num(0.0)
    {
      assert Mul(Num(exps[t]), Num(0.0)) == Num(0.0);
    }
  }

  /** A non-negative amount shared out at a positive finite price buys a finite, non-negative quantity. */
  lemma AllocationIsNonNegative<T>(exps: map<T, real>, b: real, prices: map<T, Double>, flagged: bool, t: T)
    requires forall t :: t in exps ==> t in prices && exps[t] > 0.0
    requires t in exps && prices[t].IsPositive() && b >= 0.0
    ensures Allocation(exps, Num(b), prices, flagged)[t].Num?
    ensures Allocation(exps, Num(b), prices, flagged)[t].v >= 0.0
  {
    assert exps[t] * b >= 0.0;
    assert exps[t] * b / prices[t].v >= 0.0;
  }

  /** Buying e * b / p units at price p costs b * e. */
  lemma PriceTimesAmount(p: real, e: real, b: real)
    requires p != 0.0
    ensures p * (e * b / p) == b * e
  {
  }

  /**
   * Every input t in keys has a non-zero finite price and gets the share
   * e_t * b / p_t of the amount b.
   */
  ghost predicate BuysShares<T>(keys: seq<T>, prices: map<T, Double>, bundle: map<T, Double>, e: map<T, real>, b: real) {
    forall t :: t in keys ==>
      && t in prices && t in bundle && t in e
      && prices[t].Num? && prices[t].v != 0.0
      && bundle[t] == Num(e[t] * b / prices[t].v)
  }

  /** An unflagged allocation of a finite amount at non-zero finite prices buys the shares e_t * b / p_t. */
  lemma AllocationBuysShares<T>(keys: seq<T>, exps: map<T, real>, b: real, prices: map<T, Double>, r: map<T, Double>)
    requires forall t :: t in exps ==> t in prices
    requires forall t :: t in keys ==> t in exps && prices[t].Num? && prices[t].v != 0.0
    requires r == Allocation(exps, Num(b), prices, false)
    ensures BuysShares(keys, prices, r, exps, b)
  {
    forall t | t in keys {
      AllocationShareAt(exps, b, prices, t);
    }
  }

  lemma AllocationShareAt<T>(exps: map<T, real>, b: real, prices: map<T, Double>, t: T)
    requires forall t :: t in exps ==> t in prices
    requires t in exps && prices[t].Num? && prices[t].v != 0.0
    ensures Allocation(exps, Num(b), prices, false)[t] == Num(exps[t] * b / prices[t].v)
  {
    assert Mul(Num(exps[t]), Num(b)) == Num(exps[t] * b);
  }

  /** Buying the shares e_t of an amount b costs b times the sum of the shares. */
  lemma SpendingOfShares<T>(keys: seq<T>, prices: map<T, Double>, bundle: map<T, Double>, e: map<T, real>, b: real)
    requires BuysShares(keys, prices, bundle, e, b)
    ensures Spending(keys, prices, bundle) == b * Total(keys, e)
    ensures Total(keys, e) == 1.0 ==> Spending(keys, prices, bundle) == b
  {
    var spend := map t | t in keys :: prices[t].v * bundle[t].v;
    forall t | t in keys
      ensures spend[t] == b * e[t]
    {
      PriceTimesAmount(prices[t].v, e[t], b);
    }
    TotalScaled(keys, e, spend, b);
    ScaledByOne(b, Total(keys, e));
  }

  /**
   * An unflagged allocation of b at non-zero finite prices costs b times the
   * exponent sum.
   */
  lemma AllocationSpends<T>(keys: seq<T>, exps: map<T, real>, b: real, prices: map<T, Double>, r: map<T, Double>)
    requires forall t :: t in exps ==> t in prices
    requires forall t :: t in keys ==> t in exps && prices[t].Num? && prices[t].v != 0.0
    requires r == Allocation(exps, Num(b), prices, false)
    ensures forall t :: t in keys ==> t in r && r[t].Num?
    ensures Spending(keys, prices, r) == b * Total(keys, exps)
    ensures Total(keys, exps) == 1.0 ==> Spending(keys, prices, r) == b
  {
    AllocationBuysShares(keys, exps, b, prices, r);
    SpendingOfShares(keys, prices, r, exps, b);
  }

  lemma ScaledByOne(x: real, c: real)
    ensures c == 1.0 ==> x * c == x
  {
  }

  /** Scaling every price and the amount by the same k > 0 leaves the allocation unchanged. */
  lemma AllocationIsScaleInvariant<T>(exps: map<T, real>, b: real, prices: map<T, Double>, k: real, flagged: bool)
    requires k > 0.0
    requires forall t :: t in exps ==> t in prices
    ensures var scaled := map t | t in prices :: Mul(Num(k), prices[t]);
      Allocation(exps, Num(k * b), scaled, flagged) == Allocation(exps, Num(b), prices, flagged)
  {
    var scaled := map t | t in prices :: Mul(Num(k), prices[t]);
    forall t | t in exps
      ensures Allocation(exps, Num(k * b), scaled, flagged)[t] == Allocation(exps, Num(b), prices, flagged)[t]
    {
      ScaledAmount(exps[t], b, k, prices[t]);
    }
  }

  /** One entry of the allocation is unchanged when price and amount are scaled by the same k > 0. */
  lemma ScaledAmount(e: real, budget: real, k: real, p: Double)
    requires k > 0.0
    ensures Div(Mul(Num(e), Num(k * budget)), Mul(Num(k), p)) == Div(Mul(Num(e), Num(budget)), p)
  {
    var a := e * budget;
    ScaledProduct(k, e, budget);
    assert Mul(Num(e), Num(k * budget)) == Num(k * a);
    assert Mul(Num(e), Num(budget)) == Num(a);
    ScaledQuotient(a, k, p);
  }

  /** a / p == (k * a) / (k * p) in double arithmetic, for k > 0. */
  lemma ScaledQuotient(a: real, k: real, p: Double)
    requires k > 0.0
    ensures Div(Num(k * a), Mul(Num(k), p)) == Div(Num(a), p)
  {
    match p
    case Num(x) =>
      assert Mul(Num(k), p) == Num(k * x);
      if x != 0.0 {
        CommonFactorCancels(k, a, x);
      } else {
        ScaledOverZero(a, k);
      }
    case NaN =>
    case PosInf =>
    case NegInf =>
  }

  lemma CommonFactorCancels(k: real, a: real, d: real)
    requires k != 0.0 && d != 0.0
    ensures (k * a) / (k * d) == a / d
  {
    var q := a / d;
    assert a == q * d;
    assert k * a == q * (k * d);
  }

  lemma ScaledOverZero(a: real, k: real)
    requires k > 0.0
    ensures Div(Num(k * a), Num(k * 0.0)) == Div(Num(a), Num(0.0))
  {
    ScaledSign(k, a);
    assert k * 0.0 == 0.0;
  }

  lemma ScaledProduct(k: real, e: real, b: real)
    ensures e * (k * b) == k * (e * b)
  {
  }

  /** Scaling by k > 0 keeps the sign. */
  lemma ScaledSign(k: real, a: real)
    requires k > 0.0
    ensures k * a > 0.0 <==> a > 0.0
    ensures k * a < 0.0 <==> a < 0.0
    ensures k * a == 0.0 <==> a == 0.0
  {
    if a > 0.0 { assert k * a > 0.0; }
    if a < 0.0 { assert k * a < 0.0; }
  }

  // ----- fixed prices -----

  /**
   * The fixed-price bundle: one NaN price among the input types zeroes it,
   * it never holds NaN, a zero budget buys nothing, and a positive price with
   * a non-negative budget buys a non-negative quantity.
   */
  lemma FixedPricesCases<T>(cd: CobbDouglasFunction<T>, prices: map<T, Double>, budget: real)
    requires cd.Valid()
    requires forall t :: t in cd.exponents.keys ==> t in prices
    ensures forall t :: t in cd.exponents.entries ==> !cd.AnalyticalWithFixedPrices(prices, budget)[t].NaN?
    ensures (exists t :: t in cd.exponents.keys && prices[t].NaN?) ==>
      forall t :: t in cd.exponents.entries ==> cd.AnalyticalWithFixedPrices(prices, budget)[t] == Num(0.0)
    ensures budget == 0.0 ==>
      forall t :: t in cd.exponents.entries ==> cd.AnalyticalWithFixedPrices(prices, budget)[t] == Num(0.0)
    ensures forall t :: t in cd.exponents.entries && prices[t].IsPositive() && budget >= 0.0 ==>
      cd.AnalyticalWithFixedPrices(prices, budget)[t].Num? && cd.AnalyticalWithFixedPrices(prices, budget)[t].v >= 0.0
  {
    var e := cd.exponents.entries;
    var flagged := exists t :: t in cd.exponents.keys && prices[t].NaN?;
    AllocationOfNothing(e, prices, flagged);
    forall t | t in e && prices[t].IsPositive() && budget >= 0.0
      ensures Allocation(e, Num(budget), prices, flagged)[t].Num?
      ensures Allocation(e, Num(budget), prices, flagged)[t].v >= 0.0
    {
      AllocationIsNonNegative(e, budget, prices, flagged, t);
    }
  }

  /**
   * With every price finite and non-zero, input t gets x_t = e_t * budget / p_t;
   * by SpendingOfShares the bundle then costs budget times the exponent sum,
   * which is the whole budget when the exponents sum to 1.
   */
  lemma FixedPriceAmounts<T>(cd: CobbDouglasFunction<T>, prices: map<T, Double>, budget: real)
    requires cd.Valid()
    requires forall t :: t in cd.exponents.keys ==> t in prices && prices[t].Num? && prices[t].v != 0.0
    ensures BuysShares(cd.exponents.keys, prices, cd.AnalyticalWithFixedPrices(prices, budget), cd.exponents.entries, budget)
  {
    assert !exists t :: t in cd.exponents.keys && prices[t].NaN?;
    AllocationBuysShares(cd.exponents.keys, cd.exponents.entries, budget, prices, cd.AnalyticalWithFixedPrices(prices, budget));
  }

  /**
   * At finite non-zero prices the fixed-price bundle costs the budget times
   * the exponent sum: exactly the budget when the exponents sum to 1.
   */
  lemma FixedPricesSpendBudget<T>(cd: CobbDouglasFunction<T>, prices: map<T, Double>, budget: real)
    requires cd.Valid()
    requires forall t :: t in cd.exponents.keys ==> t in prices && prices[t].Num? && prices[t].v != 0.0
    ensures forall t :: t in cd.exponents.keys ==> cd.AnalyticalWithFixedPrices(prices, budget)[t].Num?
    ensures Spending(cd.exponents.keys, prices, cd.AnalyticalWithFixedPrices(prices, budget)) ==
      budget * Total(cd.exponents.keys, cd.exponents.entries)
    ensures Total(cd.exponents.keys, cd.exponents.entries) == 1.0 ==>
      Spending(cd.exponents.keys, prices, cd.AnalyticalWithFixedPrices(prices, budget)) == budget
  {
    FixedPricesAsAllocation(cd, prices, budget);
    AllocationSpends(cd.exponents.keys, cd.exponents.entries, budget, prices, cd.AnalyticalWithFixedPrices(prices, budget));
  }

  /** Without a NaN price the fixed-price bundle is the unflagged allocation of the budget. */
  lemma FixedPricesAsAllocation<T>(cd: CobbDouglasFunction<T>, prices: map<T, Double>, budget: real)
    requires cd.Valid()
    requires forall t :: t in cd.exponents.keys ==> t in prices && !prices[t].NaN?
    ensures cd.AnalyticalWithFixedPrices(prices, budget) == Allocation(cd.exponents.entries, Num(budget), prices, false)
  {
    assert !exists t :: t in cd.exponents.keys && prices[t].NaN?;
  }

  /** Scaling every price and the budget by the same k > 0 leaves the fixed-price bundle unchanged. */
  lemma FixedPricesScaleInvariant<T>(cd: CobbDouglasFunction<T>, prices: map<T, Double>, budget: real, k: real)
    requires cd.Valid() && k > 0.0
    requires forall t :: t in cd.exponents.keys ==> t in prices
    ensures var scaled := map t | t in prices :: Mul(Num(k), prices[t]);
      cd.AnalyticalWithFixedPrices(scaled, k * budget) == cd.AnalyticalWithFixedPrices(prices, budget)
  {
    var scaled := map t | t in prices :: Mul(Num(k), prices[t]);
    ScaledPricesKeepNaN(cd.exponents.keys, prices, scaled, k);
    AllocationIsScaleInvariant(cd.exponents.entries, budget, prices, k, exists t :: t in cd.exponents.keys && prices[t].NaN?);
  }

  /** Some price is NaN exactly when some scaled price is. */
  lemma ScaledPricesKeepNaN<T>(keys: seq<T>, prices: map<T, Double>, scaled: map<T, Double>, k: real)
    requires k > 0.0
    requires forall t :: t in keys ==> t in prices
    requires forall t :: t in prices ==> t in scaled && scaled[t] == Mul(Num(k), prices[t])
    ensures (exists t :: t in keys && prices[t].NaN?) <==> (exists t :: t in keys && scaled[t].NaN?)
  {
  }

  // ----- shifted-rational prices -----

  lemma {:induction false} ShiftSumOfZeros<T>(keys: seq<T>, configs: map<T, PriceFunctionConfig>)
    requires forall t :: t in keys ==> t in configs && configs[t].coefficientXPowerMinus1 == Num(0.0)
    ensures ShiftSum(keys, configs) == Num(0.0)
  {
    if keys != [] {
      ShiftSumOfZeros(keys[..|keys| - 1], configs);
    }
  }

  lemma {:induction false} ShiftSumOfFinite<T>(keys: seq<T>, configs: map<T, PriceFunctionConfig>)
    requires forall t :: t in keys ==> t in configs
    requires forall t :: t in configs ==> configs[t].coefficientXPowerMinus1.Num?
    ensures ShiftSum(keys, configs) == Num(Total(keys, CoefficientsMinus1(configs)))
  {
    if keys != [] {
      ShiftSumOfFinite(keys[..|keys| - 1], configs);
    }
  }

  /** The shift sum, accumulated in the configs' order, equals the exact sum in any other order of the same keys. */
  lemma ShiftSumInOtherOrder<T>(configs: LinkedMap<T, PriceFunctionConfig>, keys: seq<T>)
    requires configs.Valid() && Distinct(keys)
    requires forall t :: t in keys <==> t in configs.keys
    requires forall t :: t in configs.entries ==> configs.entries[t].coefficientXPowerMinus1.Num?
    ensures ShiftSum(configs.keys, configs.entries) == Num(Total(keys, CoefficientsMinus1(configs.entries)))
  {
    ShiftSumOfFinite(configs.keys, configs.entries);
    TotalReordered(configs.keys, keys, CoefficientsMinus1(configs.entries));
  }

  /**
   * The shifted-rational bundle: one NaN c0 among the input types zeroes it,
   * and it never holds NaN.
   */
  lemma MarketPricesCases<T>(cd: CobbDouglasFunction<T>, configs: LinkedMap<T, PriceFunctionConfig>, budget: real)
    requires cd.Valid() && configs.Valid()
    requires forall t :: t in cd.exponents.keys ==> t in configs.entries
    ensures forall t :: t in cd.exponents.entries ==> !cd.AnalyticalWithMarketPrices(configs, budget)[t].NaN?
    ensures (exists t :: t in cd.exponents.keys && configs.entries[t].coefficientXPower0.NaN?) ==>
      forall t :: t in cd.exponents.entries ==> cd.AnalyticalWithMarketPrices(configs, budget)[t] == Num(0.0)
  {
  }

  /**
   * When every supplied config has c(-1) = 0, the shifted-rational solution
   * is the fixed-price solution at the prices c0.
   */
  lemma MarketPricesWithoutShiftAreFixedPrices<T>(
    cd: CobbDouglasFunction<T>, configs: LinkedMap<T, PriceFunctionConfig>, budget: real)
    requires cd.Valid() && configs.Valid()
    requires forall t :: t in cd.exponents.keys ==> t in configs.entries
    requires forall t :: t in configs.entries ==> configs.entries[t].coefficientXPowerMinus1 == Num(0.0)
    ensures cd.AnalyticalWithMarketPrices(configs, budget) ==
      cd.AnalyticalWithFixedPrices(Coefficients0(configs.entries), budget)
  {
    ShiftSumOfZeros(configs.keys, configs.entries);
    assert Sub(Num(budget), Num(0.0)) == Num(budget);
    var c0 := Coefficients0(configs.entries);
    assert (exists u :: u in cd.exponents.keys && (u !in configs.entries || configs.entries[u].coefficientXPower0.NaN?)) <==>
           (exists u :: u in cd.exponents.keys && c0[u].NaN?);
  }

  /**
   * With every c0 finite, every c(-1) finite and a config for exactly the
   * input types, the shifted-rational bundle is the allocation of
   * budget - S at the prices c0, where S is the exact sum of the c(-1) in any
   * order: what is left of the budget after the fixed parts c(-1) of all
   * price curves. With non-zero c0, AllocationBuysShares then gives input t
   * the amount e_t * (budget - S) / c0_t, and SpendingOfShares makes the
   * variable cost sum_t c0_t * x_t equal to (budget - S) times the exponent
   * sum, so with exponents summing to 1 the whole cost
   * sum_t (c0_t * x_t + c(-1)_t) is exactly the budget.
   */
  lemma MarketPriceAmounts<T>(cd: CobbDouglasFunction<T>, configs: LinkedMap<T, PriceFunctionConfig>, budget: real)
    requires cd.Valid() && configs.Valid()
    requires forall t :: t in cd.exponents.keys <==> t in configs.keys
    requires forall t :: t in configs.entries ==>
      && configs.entries[t].coefficientXPower0.Num? && configs.entries[t].coefficientXPowerMinus1.Num?
    ensures forall t :: t in cd.exponents.keys ==> t in configs.entries
    ensures cd.AnalyticalWithMarketPrices(configs, budget) ==
      Allocation(cd.exponents.entries, Num(budget - Total(cd.exponents.keys, CoefficientsMinus1(configs.entries))),
                 Coefficients0(configs.entries), false)
  {
    ShiftSumInOtherOrder(configs, cd.exponents.keys);
    var s := Total(cd.exponents.keys, CoefficientsMinus1(configs.entries));
    MarketPricesAsAllocation(cd, configs, budget, s);
    var a := Allocation(cd.exponents.entries, Num(budget - s), Coefficients0(configs.entries), false);
    assert cd.AnalyticalWithMarketPrices(configs, budget) == a;
    assert Num(budget - s) == Num(budget - Total(cd.exponents.keys, CoefficientsMinus1(configs.entries)));
  }

  /**
   * With a non-zero finite c0 for every input type and a finite sum s of the
   * c(-1) over the configs, every amount of the shifted-rational bundle is
   * finite, and when the exponents sum to 1 the variable cost
   * sum_t c0_t * x_t plus s is exactly the budget: with a config for exactly
   * the input types (ShiftSumInOtherOrder), the whole cost
   * sum_t (c0_t * x_t + c(-1)_t) is the budget.
   */
  lemma MarketPricesSpendBudget<T>(cd: CobbDouglasFunction<T>, configs: LinkedMap<T, PriceFunctionConfig>, budget: real, s: real)
    requires cd.Valid() && configs.Valid()
    requires forall t :: t in cd.exponents.keys ==>
      && t in configs.entries
      && configs.entries[t].coefficientXPower0.Num? && configs.entries[t].coefficientXPower0.v != 0.0
    requires ShiftSum(configs.keys, configs.entries) == Num(s)
    ensures forall t :: t in cd.exponents.keys ==> cd.AnalyticalWithMarketPrices(configs, budget)[t].Num?
    ensures Total(cd.exponents.keys, cd.exponents.entries) == 1.0 ==>
      Spending(cd.exponents.keys, Coefficients0(configs.entries), cd.AnalyticalWithMarketPrices(configs, budget)) + s == budget
  {
    var c0 := Coefficients0(configs.entries);
    NonZeroCoefficients0(cd, configs.entries, c0);
    MarketPricesAsAllocation(cd, configs, budget, s);
    ShiftedAllocationSpends(cd.exponents.keys, cd.exponents.entries, c0, budget, s, cd.AnalyticalWithMarketPrices(configs, budget));
  }

  /** Allocating budget - s leaves, with exponents summing to 1, exactly s of the budget unspent. */
  lemma ShiftedAllocationSpends<T>(keys: seq<T>, exps: map<T, real>, prices: map<T, Double>, b: real, s: real, r: map<T, Double>)
    requires forall t :: t in exps ==> t in prices
    requires forall t :: t in keys ==> t in exps && prices[t].Num? && prices[t].v != 0.0
    requires r == Allocation(exps, Num(b - s), prices, false)
    ensures forall t :: t in keys ==> r[t].Num?
    ensures Total(keys, exps) == 1.0 ==> Spending(keys, prices, r) + s == b
  {
    AllocationSpends(keys, exps, b - s, prices, r);
  }

  lemma NonZeroCoefficients0<T>(cd: CobbDouglasFunction<T>, configs: map<T, PriceFunctionConfig>, c0: map<T, Double>)
    requires cd.Valid() && c0 == Coefficients0(configs)
    requires forall t :: t in cd.exponents.keys ==>
      && t in configs
      && configs[t].coefficientXPower0.Num? && configs[t].coefficientXPower0.v != 0.0
    ensures forall t :: t in cd.exponents.entries ==> t in c0
    ensures forall t :: t in cd.exponents.keys ==> t in cd.exponents.entries && c0[t].Num? && c0[t].v != 0.0
  {
  }

  /** With a finite shift sum s and no NaN c0, the shifted-rational bundle allocates budget - s at the prices c0. */
  lemma MarketPricesAsAllocation<T>(cd: CobbDouglasFunction<T>, configs: LinkedMap<T, PriceFunctionConfig>, budget: real, s: real)
    requires cd.Valid() && configs.Valid()
    requires forall t :: t in cd.exponents.keys ==> t in configs.entries && configs.entries[t].coefficientXPower0.Num?
    requires ShiftSum(configs.keys, configs.entries) == Num(s)
    ensures cd.AnalyticalWithMarketPrices(configs, budget) ==
      Allocation(cd.exponents.entries, Num(budget - s), Coefficients0(configs.entries), false)
  {
    assert Sub(Num(budget), Num(s)) == Num(budget - s);
    assert !exists t :: t in cd.exponents.keys && (t !in configs.entries || configs.entries[t].coefficientXPower0.NaN?);
  }

  // ----- dispatch -----

  /** A single price function that is not a fixed price sends the call to the inherited solution. */
  lemma DispatchWithPriceCurveIsInherited<T>(
    cd: CobbDouglasFunction<T>, pfs: LinkedMap<T, PriceFunction>, budget: real,
    inherited: (LinkedMap<T, PriceFunction>, real) -> map<T, Double>, u: T)
    requires cd.Valid() && pfs.Valid()
    requires forall t :: t in cd.exponents.keys ==> t in pfs.entries
    requires u in pfs.entries && pfs.entries[u].PriceCurve?
    ensures cd.CalculateOutputMaximizingInputs(pfs, budget, inherited) == inherited(pfs, budget)
  {
  }

  // ----- worked examples -----

  /** Exponents 0.5 and 0.5, prices 2 and 4, budget 100: the bundle is 25 and 12.5. */
  lemma FixedPriceExample(cd: CobbDouglasFunction<int>)
    requires cd.exponents == LinkedMap([0, 1], map[0 := 0.5, 1 := 0.5])
    ensures cd.AnalyticalWithFixedPrices(map[0 := Num(2.0), 1 := Num(4.0)], 100.0) == map[0 := Num(25.0), 1 := Num(12.5)]
  {
    var r := cd.AnalyticalWithFixedPrices(map[0 := Num(2.0), 1 := Num(4.0)], 100.0);
    assert r[0] == Num(25.0);
    assert r[1] == Num(12.5);
  }

  /** As above with one price NaN: the whole bundle is zero. */
  lemma FixedPriceNaNExample(cd: CobbDouglasFunction<int>)
    requires cd.exponents == LinkedMap([0, 1], map[0 := 0.5, 1 := 0.5])
    ensures cd.AnalyticalWithFixedPrices(map[0 := Num(2.0), 1 := NaN], 100.0) == map[0 := Num(0.0), 1 := Num(0.0)]
  {
    assert 1 in cd.exponents.keys;
  }

  lemma TwoKeysValid<V>(a: V, b: V)
    ensures LinkedMap([0, 1], map[0 := a, 1 := b]).Valid()
    ensures forall t :: t in [0, 1] <==> t == 0 || t == 1
  {
    assert (set k | k in [0, 1]) == {0, 1};
  }

  /**
   * Exponents 0.5 and 0.5, c0 = 1 for both, c(-1) = 10 and 0, budget 50:
   * each input gets 0.5 * (50 - 10) / 1 = 20.
   */
  lemma MarketPriceExample(cd: CobbDouglasFunction<int>)
    requires cd.exponents == LinkedMap([0, 1], map[0 := 0.5, 1 := 0.5])
    ensures cd.AnalyticalWithMarketPrices(
      LinkedMap([0, 1], map[0 := PriceFunctionConfig(Num(1.0), Num(10.0)), 1 := PriceFunctionConfig(Num(1.0), Num(0.0))]),
      50.0) == map[0 := Num(20.0), 1 := Num(20.0)]
  {
    var configs := LinkedMap([0, 1], map[0 := PriceFunctionConfig(Num(1.0), Num(10.0)), 1 := PriceFunctionConfig(Num(1.0), Num(0.0))]);
    TwoKeysValid(0.5, 0.5);
    TwoKeysValid(PriceFunctionConfig(Num(1.0), Num(10.0)), PriceFunctionConfig(Num(1.0), Num(0.0)));
    assert ShiftSum(configs.keys, configs.entries) == Num(10.0) by {
      assert configs.keys[..1] == [0];
      assert configs.keys[..1][..0] == [];
    }
    MarketPricesAsAllocation(cd, configs, 50.0, 10.0);
    var r := cd.AnalyticalWithMarketPrices(configs, 50.0);
    assert r[0] == Num(0.5 * (50.0 - 10.0) / 1.0);
    assert r[1] == Num(0.5 * (50.0 - 10.0) / 1.0);
  }
}
