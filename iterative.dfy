/**
 * The iterative optimizer of convex functions: after two degenerate exits
 * and an optional seeding of every input, it repeatedly buys one slice
 * budget / N of the input type with the highest marginal output per price,
 * at that input's marginal price, until the budget is spent or no input
 * type is worth buying.
 */
module IterativeOptimizer {
  import opened Doubles
  import opened Tolerance
  import opened LinkedMaps
  import opened Sums
  import opened Prices
  import opened Greedy

  /**
   * Picks the input type with the highest marginal output per price, given
   * the bundle so far (in input order) and the price functions, or none.
   */
  type Selector<!T> = (LinkedMap<T, real>, map<T, PriceFunction>) -> Option<T>

  /**
   * The selector only picks an input type of the bundle whose marginal price
   * at its current amount is a positive finite number.
   */
  ghost predicate PicksPricedInput<T(!new)>(select: Selector<T>, pfs: map<T, PriceFunction>) {
    forall b: LinkedMap<T, real> {:trigger select(b, pfs)} :: select(b, pfs).Some? ==>
      && select(b, pfs).value in b.entries
      && select(b, pfs).value in pfs
      && pfs[select(b, pfs).value].GetMarginalPrice(b.entries[select(b, pfs).value]).IsPositive()
  }

  /** The amount every input starts with when the function needs all inputs non-zero. */
  const Seed: real := 0.0000001

  /** Some input type's price at quantity 0 is NaN. */
  predicate PricesAreNaN<T>(types: seq<T>, pfs: map<T, PriceFunction>)
    requires forall t :: t in types ==> t in pfs
  {
    exists t :: t in types && pfs[t].GetPrice(0.0).NaN?
  }

  /** What seeding charges for each input type: the seed times the price at the seed. */
  function SeedCosts<T>(types: seq<T>, pfs: map<T, PriceFunction>): (r: map<T, real>)
    requires forall t :: t in types ==> t in pfs && pfs[t].GetPrice(Seed).Num?
    ensures forall t :: t in types ==> t in r
  {
    map t | t in types :: Seed * pfs[t].GetPrice(Seed).v
  }

  /**
   * The bundle and the money spent when the loop starts: every input type is
   * in the bundle, with a positive amount exactly when the function needs all
   * inputs non-zero, and nothing is spent unless inputs were seeded; with
   * non-negative seed prices the money spent is non-negative.
   */
  function Start<T>(types: seq<T>, needsAllInputFactorsNonZero: bool, pfs: map<T, PriceFunction>): (r: Purchase<T>)
    requires forall t :: t in types ==> t in pfs
    requires needsAllInputFactorsNonZero ==> forall t :: t in types ==> pfs[t].GetPrice(Seed).Num?
    ensures r.bundle.Keys == set t | t in types
    ensures forall t :: t in r.bundle ==> r.bundle[t] >= 0.0 && (r.bundle[t] > 0.0 <==> needsAllInputFactorsNonZero)
    ensures !needsAllInputFactorsNonZero ==> r.spent == 0.0
    ensures needsAllInputFactorsNonZero && (forall t :: t in types ==> pfs[t].GetPrice(Seed).v >= 0.0) ==> r.spent >= 0.0
    ensures r.steps == 0
  {
    if needsAllInputFactorsNonZero then
      assert (forall t :: t in types ==> pfs[t].GetPrice(Seed).v >= 0.0) ==>
        Total(types, SeedCosts(types, pfs)) >= 0.0 by {
        if forall t :: t in types ==> pfs[t].GetPrice(Seed).v >= 0.0 {
          TotalOfNonNegative(types, SeedCosts(types, pfs));
        }
      }
      Purchase(map t | t in types :: Seed, Total(types, SeedCosts(types, pfs)), 0)
    else
      Purchase(Zeros(types), 0.0, 0)
  }

  /**
   * The buying loop: while the budget exceeds the money spent (within
   * tolerance) and the selector picks an input type, buy one slice of it at
   * its marginal price. It keeps the input types of the bundle, never undoes
   * an iteration, and ends where the budget no longer exceeds the money spent
   * or the selector picks nothing.
   */
  function Fill<T(!new)>(types: seq<T>, s: Purchase<T>, budget: real, slice: real, cmp: Comparisons,
                   select: Selector<T>, pfs: map<T, PriceFunction>): (r: Purchase<T>)
    requires cmp.Sound() && slice > 0.0 && PicksPricedInput(select, pfs)
    ensures r.bundle.Keys == s.bundle.Keys
    ensures r.steps >= s.steps
    ensures !cmp.greater(budget, r.spent) || select(LinkedMap(types, r.bundle), pfs).None?
    decreases SlicesLeft(budget, s.spent, slice)
  {
    if !cmp.greater(budget, s.spent) then s
    else match select(LinkedMap(types, s.bundle), pfs)
      case None => s
      case Some(t) =>
        BuySpendsSlice(s, t, slice, pfs[t].GetMarginalPrice(s.bundle[t]).v);
        SlicesLeftDecreases(budget, s.spent, slice, Buy(s, t, slice, pfs[t].GetMarginalPrice(s.bundle[t]).v).spent);
        Fill(types, Buy(s, t, slice, pfs[t].GetMarginalPrice(s.bundle[t]).v), budget, slice, cmp, select, pfs)
  }

  /** One iteration of the loop: a selected input type is bought and the loop goes on from there. */
  lemma FillStep<T(!new)>(types: seq<T>, s: Purchase<T>, budget: real, slice: real, cmp: Comparisons,
                          select: Selector<T>, pfs: map<T, PriceFunction>, t: T)
    requires cmp.Sound() && slice > 0.0 && PicksPricedInput(select, pfs)
    requires cmp.greater(budget, s.spent) && select(LinkedMap(types, s.bundle), pfs) == Some(t)
    ensures t in s.bundle && t in pfs && pfs[t].GetMarginalPrice(s.bundle[t]).IsPositive()
    ensures Fill(types, s, budget, slice, cmp, select, pfs) ==
      Fill(types, Buy(s, t, slice, pfs[t].GetMarginalPrice(s.bundle[t]).v), budget, slice, cmp, select, pfs)
  {
  }

  /**
   * One iteration as the loop performs it: the entry of t grows by
   * amount = slice / price and the money spent by price * amount. The loop
   * goes on from the new state, which has fewer slices left.
   */
  lemma FillAfterPurchase<T(!new)>(types: seq<T>, bundle: map<T, real>, spent: real, steps: nat, budget: real, slice: real,
                                   cmp: Comparisons, select: Selector<T>, pfs: map<T, PriceFunction>, t: T, price: real,
                                   amount: real, newBundle: map<T, real>, newSpent: real)
    requires cmp.Sound() && slice > 0.0 && PicksPricedInput(select, pfs)
    requires cmp.greater(budget, spent) && select(LinkedMap(types, bundle), pfs) == Some(t)
    requires t in bundle && t in pfs && pfs[t].GetMarginalPrice(bundle[t]) == Num(price) && amount == slice / price
    requires newBundle == bundle[t := bundle[t] + amount] && newSpent == spent + price * amount
    ensures SlicesLeft(budget, newSpent, slice) < SlicesLeft(budget, spent, slice)
    ensures Fill(types, Purchase(newBundle, newSpent, steps + 1), budget, slice, cmp, select, pfs) ==
            Fill(types, Purchase(bundle, spent, steps), budget, slice, cmp, select, pfs)
  {
    var s := Purchase(bundle, spent, steps);
    PriceTimesQuotient(price, slice, amount);
    BuyIsUpdate(s, t, slice, price, amount);
    assert Buy(s, t, slice, price) == Purchase(newBundle, newSpent, steps + 1);
    SlicesLeftDecreases(budget, spent, slice, newSpent);
    FillStep(types, s, budget, slice, cmp, select, pfs, t);
  }

  /** The loop never lowers an amount. */
  lemma {:induction false} FillNeverLowersAmounts<T(!new)>(types: seq<T>, s: Purchase<T>, budget: real, slice: real,
                                                     cmp: Comparisons, select: Selector<T>, pfs: map<T, PriceFunction>)
    requires cmp.Sound() && slice > 0.0 && PicksPricedInput(select, pfs)
    ensures forall t :: t in s.bundle ==> Fill(types, s, budget, slice, cmp, select, pfs).bundle[t] >= s.bundle[t]
    decreases SlicesLeft(budget, s.spent, slice)
  {
    if cmp.greater(budget, s.spent) && select(LinkedMap(types, s.bundle), pfs).Some? {
      var t := select(LinkedMap(types, s.bundle), pfs).value;
      var next := Buy(s, t, slice, pfs[t].GetMarginalPrice(s.bundle[t]).v);
      BuySpendsSlice(s, t, slice, pfs[t].GetMarginalPrice(s.bundle[t]).v);
      SlicesLeftDecreases(budget, s.spent, slice, Buy(s, t, slice, pfs[t].GetMarginalPrice(s.bundle[t]).v).spent);
      FillNeverLowersAmounts(types, next, budget, slice, cmp, select, pfs);
    }
  }

  /** Every slice bought costs exactly one slice of the budget. */
  lemma {:induction false} FillSpendsSlices<T(!new)>(types: seq<T>, s: Purchase<T>, budget: real, slice: real,
                                               cmp: Comparisons, select: Selector<T>, pfs: map<T, PriceFunction>)
    requires cmp.Sound() && slice > 0.0 && PicksPricedInput(select, pfs)
    ensures Fill(types, s, budget, slice, cmp, select, pfs).spent ==
      s.spent + (Fill(types, s, budget, slice, cmp, select, pfs).steps - s.steps) as real * slice
    decreases SlicesLeft(budget, s.spent, slice)
  {
    if cmp.greater(budget, s.spent) && select(LinkedMap(types, s.bundle), pfs).Some? {
      var t := select(LinkedMap(types, s.bundle), pfs).value;
      var next := Buy(s, t, slice, pfs[t].GetMarginalPrice(s.bundle[t]).v);
      BuySpendsSlice(s, t, slice, pfs[t].GetMarginalPrice(s.bundle[t]).v);
      SlicesLeftDecreases(budget, s.spent, slice, Buy(s, t, slice, pfs[t].GetMarginalPrice(s.bundle[t]).v).spent);
      FillSpendsSlices(types, next, budget, slice, cmp, select, pfs);
    }
  }

  /**
   * When the loop bought anything, the last slice was bought below the
   * budget: the overshoot is less than one slice.
   */
  lemma {:induction false} FillStops<T(!new)>(types: seq<T>, s: Purchase<T>, budget: real, slice: real,
                                        cmp: Comparisons, select: Selector<T>, pfs: map<T, PriceFunction>)
    requires cmp.Sound() && slice > 0.0 && PicksPricedInput(select, pfs)
    ensures var r := Fill(types, s, budget, slice, cmp, select, pfs);
      r.steps > s.steps ==> r.spent - slice < budget
    decreases SlicesLeft(budget, s.spent, slice)
  {
    if cmp.greater(budget, s.spent) && select(LinkedMap(types, s.bundle), pfs).Some? {
      var t := select(LinkedMap(types, s.bundle), pfs).value;
      var next := Buy(s, t, slice, pfs[t].GetMarginalPrice(s.bundle[t]).v);
      BuySpendsSlice(s, t, slice, pfs[t].GetMarginalPrice(s.bundle[t]).v);
      SlicesLeftDecreases(budget, s.spent, slice, Buy(s, t, slice, pfs[t].GetMarginalPrice(s.bundle[t]).v).spent);
      FillStops(types, next, budget, slice, cmp, select, pfs);
      FillSpendsSlices(types, next, budget, slice, cmp, select, pfs);
    }
  }

  /**
   * With slice = budget / n and a non-negative spend at the start, the loop
   * buys at most n slices.
   */
  lemma FillIterationsBounded<T(!new)>(types: seq<T>, s: Purchase<T>, budget: real, n: nat,
                                 cmp: Comparisons, select: Selector<T>, pfs: map<T, PriceFunction>)
    requires cmp.Sound() && n > 0 && budget > 0.0 && PicksPricedInput(select, pfs)
    requires s.spent >= 0.0
    ensures Fill(types, s, budget, Slice(budget, n), cmp, select, pfs).steps - s.steps <= n
  {
    var slice := Slice(budget, n);
    var r := Fill(types, s, budget, slice, cmp, select, pfs);
    FillSpendsSlices(types, s, budget, slice, cmp, select, pfs);
    FillStops(types, s, budget, slice, cmp, select, pfs);
    var k := r.steps - s.steps;
    if k > 0 {
      assert r.spent - slice == s.spent + (k - 1) as real * slice;
    }
    StepsWithinSlices(s.spent, k, slice, budget, n);
  }

  /**
   * With no input types the bundle is empty, the selector has nothing to
   * pick and the loop stops at once, whatever the slice.
   */
  lemma FillOfNoInputs<T(!new)>(types: seq<T>, s: Purchase<T>, budget: real, slice: real,
                                cmp: Comparisons, select: Selector<T>, pfs: map<T, PriceFunction>)
    requires cmp.Sound() && slice > 0.0 && PicksPricedInput(select, pfs)
    requires s.bundle == map[]
    ensures Fill(types, s, budget, slice, cmp, select, pfs) == s
  {
    if cmp.greater(budget, s.spent) {
      assert select(LinkedMap(types, s.bundle), pfs).None?;
    }
  }

  /** The scan for a NaN price at quantity 0, stopping at the first one. */
  method FindNaNPrice<T>(types: seq<T>, pfs: map<T, PriceFunction>) returns (pricesAreNaN: bool)
    requires forall t :: t in types ==> t in pfs
    ensures pricesAreNaN <==> PricesAreNaN(types, pfs)
  {
    pricesAreNaN := false;
    var i := 0;
    while i < |types| && !pricesAreNaN
      invariant 0 <= i <= |types|
      invariant pricesAreNaN <==> exists j :: 0 <= j < i && pfs[types[j]].GetPrice(0.0).NaN?
    {
      pricesAreNaN := pfs[types[i]].GetPrice(0.0).NaN?;
      i := i + 1;
    }
    if !pricesAreNaN {
      forall t | t in types ensures !pfs[t].GetPrice(0.0).NaN? {
        var j :| 0 <= j < |types| && types[j] == t;
      }
    }
  }

  /** The seeding loop: every input gets the seed, and its cost at the seed price is added to the money spent. */
  method SeedInputs<T>(types: seq<T>, pfs: map<T, PriceFunction>) returns (bundleOfInputs: map<T, real>, moneySpent: real)
    requires forall t :: t in types ==> t in pfs && pfs[t].GetPrice(Seed).Num?
    ensures bundleOfInputs == Start(types, true, pfs).bundle
    ensures moneySpent == Start(types, true, pfs).spent
  {
    moneySpent := 0.0;
    bundleOfInputs := map[];
    var k := 0;
    while k < |types|
      invariant 0 <= k <= |types|
      invariant bundleOfInputs == map t | t in types[..k] :: Seed
      invariant moneySpent == Total(types[..k], SeedCosts(types, pfs))
    {
      bundleOfInputs := bundleOfInputs[types[k] := Seed];
      moneySpent := moneySpent + bundleOfInputs[types[k]] * pfs[types[k]].GetPrice(bundleOfInputs[types[k]]).v;
      assert types[..k + 1][..k] == types[..k];
      k := k + 1;
    }
    assert types[..k] == types;
  }

  /**
   * calculateOutputMaximizingInputsIterative: zero for every input type when
   * some price at quantity 0 is NaN and every input must be non-zero, or when
   * the budget is not above 0 within tolerance; with no input types the
   * empty bundle (the loop stops at once, see FillOfNoInputs); otherwise the
   * bundle the buying loop reaches from the start state with slices of
   * budget / (|types| * numberOfIterations).
   */
  method CalculateOutputMaximizingInputsIterative<T(!new)>(
    types: seq<T>, needsAllInputFactorsNonZero: bool, pfs: map<T, PriceFunction>, budget: real,
    numberOfIterations: int, cmp: Comparisons, select: Selector<T>)
    returns (bundleOfInputs: map<T, real>)
    requires Distinct(types) && numberOfIterations > 0
    requires cmp.Sound() && PicksPricedInput(select, pfs)
    requires forall t :: t in types ==> t in pfs
    requires needsAllInputFactorsNonZero && !PricesAreNaN(types, pfs) && !cmp.lesserEqual(budget, 0.0) ==>
      forall t :: t in types ==> pfs[t].GetPrice(Seed).Num?
    ensures PricesAreNaN(types, pfs) && needsAllInputFactorsNonZero ==> bundleOfInputs == Zeros(types)
    ensures !(PricesAreNaN(types, pfs) && needsAllInputFactorsNonZero) && cmp.lesserEqual(budget, 0.0) ==>
      bundleOfInputs == Zeros(types)
    ensures |types| == 0 ==> bundleOfInputs == map[]
    ensures !(PricesAreNaN(types, pfs) && needsAllInputFactorsNonZero) && !cmp.lesserEqual(budget, 0.0) && |types| > 0 ==>
      && budget > 0.0
      && bundleOfInputs == Fill(types, Start(types, needsAllInputFactorsNonZero, pfs), budget,
                                Slice(budget, NumberOfSlices(|types|, numberOfIterations)), cmp, select, pfs).bundle
  {
    var pricesAreNaN := FindNaNPrice(types, pfs);
    if pricesAreNaN && needsAllInputFactorsNonZero {
      return Zeros(types);
    }
    if cmp.lesserEqual(budget, 0.0) {
      return Zeros(types);
    }
    if |types| == 0 {
      // the selector finds nothing in the empty bundle
      return map[];
    }

    var moneySpent := 0.0;
    if needsAllInputFactorsNonZero {
      bundleOfInputs, moneySpent := SeedInputs(types, pfs);
    } else {
      bundleOfInputs := Zeros(types);
    }

    var numberOfSlices := NumberOfSlices(|types|, numberOfIterations);
    bundleOfInputs := BuyWhileBudgetLeft(types, bundleOfInputs, moneySpent, budget,
                                         Slice(budget, numberOfSlices), cmp, select, pfs);
  }

  /**
   * The buying loop of calculateOutputMaximizingInputsIterative, from the
   * given bundle and money spent: each iteration buys one slice of the
   * selected input type at its marginal price.
   */
  method BuyWhileBudgetLeft<T(!new)>(types: seq<T>, bundle: map<T, real>, spent: real, budget: real, slice: real,
                                     cmp: Comparisons, select: Selector<T>, pfs: map<T, PriceFunction>)
    returns (bundleOfInputs: map<T, real>)
    requires cmp.Sound() && slice > 0.0 && PicksPricedInput(select, pfs)
    ensures bundleOfInputs == Fill(types, Purchase(bundle, spent, 0), budget, slice, cmp, select, pfs).bundle
  {
    bundleOfInputs := bundle;
    var moneySpent := spent;
    ghost var steps: nat := 0;
    while cmp.greater(budget, moneySpent)
      invariant Fill(types, Purchase(bundleOfInputs, moneySpent, steps), budget, slice, cmp, select, pfs) ==
                Fill(types, Purchase(bundle, spent, 0), budget, slice, cmp, select, pfs)
      decreases SlicesLeft(budget, moneySpent, slice)
    {
      var optimalInputType := select(LinkedMap(types, bundleOfInputs), pfs);
      if optimalInputType.None? {
        break;
      }
      var t := optimalInputType.value;
      var marginalPrice := pfs[t].GetMarginalPrice(bundleOfInputs[t]);
      var amount := slice / marginalPrice.v;
      ghost var previousBundle, previousSpent := bundleOfInputs, moneySpent;
      bundleOfInputs := bundleOfInputs[t := bundleOfInputs[t] + amount];
      moneySpent := moneySpent + marginalPrice.v * amount;
      FillAfterPurchase(types, previousBundle, previousSpent, steps, budget, slice, cmp, select, pfs,
                        t, marginalPrice.v, amount, bundleOfInputs, moneySpent);
      steps := steps + 1;
    }
  }
}
