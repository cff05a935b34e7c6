/**
 * The Cobb-Douglas function y = a * x_1^e_1 * ... * x_n^e_n with its two
 * closed-form budget allocations (fixed prices and shifted-rational prices)
 * and the dispatch that picks the fixed-price one.
 */
module CobbDouglas {
  import opened Doubles
  import opened Tolerance
  import opened LinkedMaps
  import opened Sums
  import opened Prices

  /** Input types with their exponents, in declaration order. */
  type Exponents<T> = LinkedMap<T, real>

  /**
   * The facts about Java's Math.pow that the model relies on: a positive base
   * gives a positive finite power, zero to a positive power is zero, and zero
   * to a negative power is positive infinity.
   */
  ghost predicate PowLaws(pow: (real, real) -> Double) {
    && (forall x, e :: x > 0.0 ==> pow(x, e).IsPositive())
    && (forall e :: e > 0.0 ==> pow(0.0, e) == Num(0.0))
    && (forall e :: e < 0.0 ==> pow(0.0, e) == PosInf)
  }

  /** What construction asserts: a positive coefficient, exponents in ]0, 1[ summing to 1 within tolerance. */
  ghost predicate ValidParameters<T>(coefficient: real, exponents: Exponents<T>, cmp: Comparisons) {
    && exponents.Valid()
    && cmp.greater(coefficient, 0.0)
    && (forall t :: t in exponents.entries ==> 0.0 < exponents.entries[t] < 1.0)
    && cmp.equal(Total(exponents.keys, exponents.entries), 1.0)
  }

  class CobbDouglasFunction<T(==)> {
    var coefficient: real
    const exponents: Exponents<T>

    /** The exponent table is well formed and every exponent lies in ]0, 1[. */
    ghost predicate Valid() {
      && exponents.Valid()
      && (forall t :: t in exponents.entries ==> 0.0 < exponents.entries[t] < 1.0)
    }

    constructor (coefficient: real, exponents: Exponents<T>, cmp: Comparisons)
      requires cmp.Sound()
      requires ValidParameters(coefficient, exponents, cmp)
      ensures Valid()
      ensures this.coefficient == coefficient && this.coefficient > 0.0
      ensures this.exponents == exponents
    {
      this.coefficient := coefficient;
      this.exponents := exponents;
    }

    /** The domain of the function: the key set of the exponent table. */
    function GetInputTypes(): (r: set<T>)
      requires exponents.Valid()
      ensures forall t :: t in r ==> t in exponents.keys
      ensures forall t :: t in exponents.keys ==> t in r
    {
      exponents.entries.Keys
    }

    /** The current coefficient a, as the last construction or SetCoefficient left it. */
    function GetCoefficient(): (r: real)
      reads this
      ensures r == coefficient
    {
      coefficient
    }

    method SetCoefficient(coefficient: real)
      modifies this
      ensures this.coefficient == coefficient
    {
      this.coefficient := coefficient;
    }

    /** A positive coefficient, Math.pow's laws and a non-negative amount of every input type. */
    ghost predicate Regular(bundleOfInputs: map<T, real>, pow: (real, real) -> Double)
      reads this
    {
      && coefficient > 0.0 && PowLaws(pow)
      && forall t :: t in exponents.keys ==> t in bundleOfInputs && bundleOfInputs[t] >= 0.0
    }

    /**
     * y = a * x_1^e_1 * ... * x_n^e_n, multiplied in declaration order. In the
     * regular case y is finite and non-negative, and it is 0 exactly when some
     * input is 0.
     */
    function F(bundleOfInputs: map<T, real>, pow: (real, real) -> Double): (y: Double)
      reads this
      requires Valid()
      requires forall t :: t in exponents.keys ==> t in bundleOfInputs
      ensures Regular(bundleOfInputs, pow) ==>
        && y.Num? && y.v >= 0.0
        && (y == Num(0.0) <==> exists t :: t in exponents.keys && bundleOfInputs[t] == 0.0)
    {
      var y := Product(Num(coefficient), exponents.keys, exponents.entries, bundleOfInputs, pow);
      assert Regular(bundleOfInputs, pow) ==>
        && y.Num? && y.v >= 0.0
        && (y == Num(0.0) <==> exists t :: t in exponents.keys && bundleOfInputs[t] == 0.0) by {
        if Regular(bundleOfInputs, pow) {
          ProductVanishesIffSomeBaseIsZero(Num(coefficient), exponents.keys, exponents.entries, bundleOfInputs, pow);
        }
      }
      y
    }

    /**
     * dy/dx_k = e_k * x_k^(e_k - 1) * a * prod_{i != k} x_i^e_i, except that a
     * zero product of the other factors times an infinite own factor is 0. In
     * the regular case it is 0 when some other input is 0 (including the
     * 0 * infinity case where x_k is 0 as well), positive infinity when only
     * x_k is 0, and positive and finite when every input is positive.
     */
    function PartialDerivative(forBundleOfInputs: map<T, real>, withRespectToInputType: T, pow: (real, real) -> Double): (d: Double)
      reads this
      requires Valid()
      requires withRespectToInputType in exponents.entries
      requires forall t :: t in exponents.keys ==> t in forBundleOfInputs
      ensures Regular(forBundleOfInputs, pow) ==>
        && ((exists t :: t in exponents.keys && t != withRespectToInputType && forBundleOfInputs[t] == 0.0) ==> d == Num(0.0))
        && (((forall t :: t in exponents.keys && t != withRespectToInputType ==> forBundleOfInputs[t] > 0.0) &&
              forBundleOfInputs[withRespectToInputType] == 0.0) ==> d == PosInf)
        && ((forall t :: t in exponents.keys ==> forBundleOfInputs[t] > 0.0) ==> d.IsPositive())
    {
      var others := Without(exponents.keys, withRespectToInputType);
      var constant := Product(Num(coefficient), others, exponents.entries, forBundleOfInputs, pow);
      var differentialExponent := exponents.entries[withRespectToInputType] - 1.0;
      var differentialCoefficient := exponents.entries[withRespectToInputType];
      var differentialFactor := Mul(Num(differentialCoefficient),
                                    pow(forBundleOfInputs[withRespectToInputType], differentialExponent));
      var d := if constant == Num(0.0) && differentialFactor.IsInfinite() then Num(0.0)
               else Mul(constant, differentialFactor);
      assert Regular(forBundleOfInputs, pow) ==>
        && ((exists t :: t in exponents.keys && t != withRespectToInputType && forBundleOfInputs[t] == 0.0) ==> d == Num(0.0))
        && (((forall t :: t in exponents.keys && t != withRespectToInputType ==> forBundleOfInputs[t] > 0.0) &&
              forBundleOfInputs[withRespectToInputType] == 0.0) ==> d == PosInf)
        && ((forall t :: t in exponents.keys ==> forBundleOfInputs[t] > 0.0) ==> d.IsPositive()) by {
        if Regular(forBundleOfInputs, pow) {
          ProductVanishesIffSomeBaseIsZero(Num(coefficient), others, exponents.entries, forBundleOfInputs, pow);
          OthersAreTheKeysBesideK(exponents.keys, withRespectToInputType, forBundleOfInputs);
          OwnFactorCases(differentialCoefficient, forBundleOfInputs[withRespectToInputType], pow);
          PositiveTimesPositive(constant, differentialFactor);
        }
      }
      d
    }

    /**
     * Dispatch: the fixed-price solution when every supplied price function is
     * a fixed price (the scan over the entries stops at the first one that is
     * not), otherwise the inherited general solution, which is a parameter here.
     */
    function CalculateOutputMaximizingInputs(
      priceFunctionsOfInputs: LinkedMap<T, PriceFunction>,
      budget: real,
      inherited: (LinkedMap<T, PriceFunction>, real) -> map<T, Double>): (r: map<T, Double>)
      requires Valid() && priceFunctionsOfInputs.Valid()
      requires forall t :: t in exponents.keys ==> t in priceFunctionsOfInputs.entries
      ensures AllFixed(priceFunctionsOfInputs.entries) ==>
        r == AnalyticalWithFixedPrices(FixedPrices(priceFunctionsOfInputs.entries), budget)
      ensures !AllFixed(priceFunctionsOfInputs.entries) ==> r == inherited(priceFunctionsOfInputs, budget)
    {
      var pfs := priceFunctionsOfInputs;
      var n := FixedPrefix(pfs.keys, pfs.entries);
      var fixedPrices := map t | t in pfs.keys[..n] :: pfs.entries[t].GetPrice(0.0);
      if n == |pfs.keys| then
        assert fixedPrices == FixedPrices(pfs.entries);
        AnalyticalWithFixedPrices(fixedPrices, budget)
      else
        inherited(pfs, budget)
    }

    /**
     * The Lagrangian optimum under fixed prices: x_t = e_t * budget / p_t.
     * One NaN price among the input types zeroes the whole bundle; a NaN
     * amount is clamped to 0.
     */
    function AnalyticalWithFixedPrices(pricesOfInputs: map<T, Double>, budget: real): (r: map<T, Double>)
      requires Valid()
      requires forall t :: t in exponents.keys ==> t in pricesOfInputs
      ensures r.Keys == exponents.entries.Keys
    {
      var pricesAreNaN := exists t :: t in exponents.keys && pricesOfInputs[t].NaN?;
      Allocation(exponents.entries, Num(budget), pricesOfInputs, pricesAreNaN)
    }

    /**
     * The Lagrangian optimum under shifted-rational prices
     * p_t(x) = c0_t + c(-1)_t / x: x_t = e_t * (budget - S) / c0_t, where S sums
     * c(-1) over every supplied config. A NaN c0 of any input type zeroes the
     * whole bundle; a NaN amount is clamped to 0. The source flags a missing
     * config too, but then dereferences it, so a config per input type is
     * required here.
     */
    function AnalyticalWithMarketPrices(priceFunctionConfigs: LinkedMap<T, PriceFunctionConfig>, budget: real): (r: map<T, Double>)
      requires Valid() && priceFunctionConfigs.Valid()
      requires forall t :: t in exponents.keys ==> t in priceFunctionConfigs.entries
      ensures r.Keys == exponents.entries.Keys
    {
      var configs := priceFunctionConfigs.entries;
      var pricesAreNaN := exists t :: t in exponents.keys && (t !in configs || configs[t].coefficientXPower0.NaN?);
      var sumOfCoefficientXPowerMinus1 := ShiftSum(priceFunctionConfigs.keys, configs);
      Allocation(exponents.entries, Sub(Num(budget), sumOfCoefficientXPowerMinus1), Coefficients0(configs), pricesAreNaN)
    }
  }

  /**
   * The allocation step both closed forms share: input t gets
   * e_t * amount / price_t, every input gets 0 when the bundle is flagged,
   * and a NaN amount becomes 0.
   */
  function Allocation<T>(exps: map<T, real>, amount: Double, prices: map<T, Double>, flagged: bool): (r: map<T, Double>)
    requires forall t :: t in exps ==> t in prices
    ensures r.Keys == exps.Keys
    ensures forall t :: t in exps ==> !r[t].NaN?
    ensures flagged ==> forall t :: t in exps ==> r[t] == Num(0.0)
  {
    map t | t in exps ::
      var optimalAmount := Div(Mul(Num(exps[t]), amount), prices[t]);
      if flagged || optimalAmount.NaN? then Num(0.0) else optimalAmount
  }

  /** The c0 coefficient of every config: the price an input approaches when bought in bulk. */
  function Coefficients0<T>(configs: map<T, PriceFunctionConfig>): (r: map<T, Double>)
    ensures r.Keys == configs.Keys
    ensures forall t :: t in configs ==> r[t] == configs[t].coefficientXPower0
  {
    map t | t in configs :: configs[t].coefficientXPower0
  }

  /** acc * b[k_0]^e[k_0] * b[k_1]^e[k_1] * ..., folded left over the keys as the source's loops do. */
  function Product<T>(acc: Double, keys: seq<T>, exps: map<T, real>, bundle: map<T, real>, pow: (real, real) -> Double): (r: Double)
    requires forall t :: t in keys ==> t in exps && t in bundle
    decreases |keys|
  {
    if keys == [] then acc
    else Product(Mul(acc, pow(bundle[keys[0]], exps[keys[0]])), keys[1..], exps, bundle, pow)
  }

  /** The keys other than k, in their original order. */
  function Without<T(==)>(keys: seq<T>, k: T): (r: seq<T>)
    ensures forall t :: t in r ==> t in keys && t != k
    ensures forall t :: t in keys && t != k ==> t in r
  {
    if keys == [] then []
    else (if keys[0] == k then [] else [keys[0]]) + Without(keys[1..], k)
  }

  /** The number of leading entries, in iteration order, whose price function is a fixed price. */
  function FixedPrefix<T>(keys: seq<T>, priceFunctions: map<T, PriceFunction>): (n: nat)
    requires forall t :: t in keys ==> t in priceFunctions
    ensures n <= |keys|
    ensures forall i :: 0 <= i < n ==> priceFunctions[keys[i]].FixedPrice?
    ensures n < |keys| ==> !priceFunctions[keys[n]].FixedPrice?
  {
    if keys == [] || !priceFunctions[keys[0]].FixedPrice? then 0
    else 1 + FixedPrefix(keys[1..], priceFunctions)
  }

  predicate AllFixed<T>(priceFunctions: map<T, PriceFunction>) {
    forall t :: t in priceFunctions ==> priceFunctions[t].FixedPrice?
  }

  function FixedPrices<T>(priceFunctions: map<T, PriceFunction>): (r: map<T, Double>) {
    map t | t in priceFunctions :: priceFunctions[t].GetPrice(0.0)
  }

  /**
   * The sum of c(-1) over the configs in iteration order, with Java's NaN and
   * infinity rules: finite when every summand is, NaN when some summand is.
   */
  function ShiftSum<T>(keys: seq<T>, configs: map<T, PriceFunctionConfig>): (r: Double)
    requires forall t :: t in keys ==> t in configs
    ensures (forall t :: t in keys ==> configs[t].coefficientXPowerMinus1.Num?) ==> r.Num?
    ensures (exists t :: t in keys && configs[t].coefficientXPowerMinus1.NaN?) ==> r.NaN?
  {
    if keys == [] then Num(0.0)
    else Add(ShiftSum(keys[..|keys| - 1], configs), configs[keys[|keys| - 1]].coefficientXPowerMinus1)
  }

  // ----- output and marginal output -----

  /**
   * A product of non-negative powers with positive exponents is finite and
   * non-negative, and it is zero exactly when the start value or one of the
   * bases is zero.
   */
  lemma {:induction false} ProductVanishesIffSomeBaseIsZero<T>(
    acc: Double, keys: seq<T>, exps: map<T, real>, bundle: map<T, real>, pow: (real, real) -> Double)
    requires PowLaws(pow) && acc.Num? && acc.v >= 0.0
    requires forall t :: t in keys ==> t in exps && t in bundle && bundle[t] >= 0.0 && exps[t] > 0.0
    ensures Product(acc, keys, exps, bundle, pow).Num?
    ensures Product(acc, keys, exps, bundle, pow).v >= 0.0
    ensures Product(acc, keys, exps, bundle, pow) == Num(0.0) <==>
      acc.v == 0.0 || exists t :: t in keys && bundle[t] == 0.0
    decreases |keys|
  {
    if keys != [] {
      var t0 := keys[0];
      var p := pow(bundle[t0], exps[t0]);
      assert p.Num? && p.v >= 0.0 && (p.v == 0.0 <==> bundle[t0] == 0.0) by {
        if bundle[t0] > 0.0 { assert p.IsPositive(); } else { assert p == Num(0.0); }
      }
      var next := Mul(acc, p);
      assert next == Num(acc.v * p.v);
      assert acc.v * p.v >= 0.0;
      assert acc.v * p.v == 0.0 <==> acc.v == 0.0 || p.v == 0.0 by {
        if acc.v > 0.0 && p.v > 0.0 { assert acc.v * p.v > 0.0; }
      }
      ProductVanishesIffSomeBaseIsZero(next, keys[1..], exps, bundle, pow);
      assert keys == [t0] + keys[1..];
      assert (exists t :: t in keys && bundle[t] == 0.0) <==>
             bundle[t0] == 0.0 || exists t :: t in keys[1..] && bundle[t] == 0.0;
    }
  }

  /** The own factor e * x^(e - 1), for 0 < e < 1: infinite at x = 0, positive and finite for x > 0. */
  lemma OwnFactorCases(e: real, x: real, pow: (real, real) -> Double)
    requires PowLaws(pow) && 0.0 < e < 1.0 && x >= 0.0
    ensures x == 0.0 ==> Mul(Num(e), pow(x, e - 1.0)) == PosInf
    ensures x > 0.0 ==> Mul(Num(e), pow(x, e - 1.0)).IsPositive()
  {
    if x == 0.0 {
      assert pow(0.0, e - 1.0) == PosInf;
    } else {
      assert pow(x, e - 1.0).IsPositive();
      assert e * pow(x, e - 1.0).v > 0.0;
    }
  }

  lemma PositiveTimesPositive(a: Double, b: Double)
    ensures a.IsPositive() && b.IsPositive() ==> Mul(a, b).IsPositive()
    ensures a.IsPositive() && b.PosInf? ==> Mul(a, b).PosInf?
  {
    if a.IsPositive() && b.IsPositive() {
      assert a.v * b.v > 0.0;
    }
  }

  lemma OthersAreTheKeysBesideK<T>(keys: seq<T>, k: T, bundle: map<T, real>)
    requires forall t :: t in keys ==> t in bundle
    ensures (exists t :: t in Without(keys, k) && bundle[t] == 0.0) <==> (exists t :: t in keys && t != k && bundle[t] == 0.0)
    ensures (forall t :: t in Without(keys, k) ==> bundle[t] > 0.0) <==> (forall t :: t in keys && t != k ==> bundle[t] > 0.0)
  {
  }
}
