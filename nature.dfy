/**
 * The older iterative optimizer, for fixed unit costs: NaN costs in the
 * caller's map are overwritten with a large number, the budget is divided
 * into 20 slices per input type, each iteration buys one slice of the input
 * type with the largest marginal output per cost, and at the end amounts
 * that compare equal to 0 within tolerance are set to exactly 0.
 */
module NatureOptimizer {
  import opened Doubles
  import opened Tolerance
  import opened LinkedMaps
  import opened Greedy

  /** The caller's map of unit costs, which the optimizer rewrites in place. */
  class CostsOfInputs<T(==)> {
    var entries: map<T, Double>

    constructor (entries: map<T, Double>)
      ensures this.entries == entries
    {
      this.entries := entries;
    }
  }

  /** The cost that replaces a NaN cost, large enough to keep the input out of the bundle. */
  const NaNCostReplacement: real := 9999999999999.0

  /** The number of slices the budget is divided into, per input type. */
  const IterationsPerInputType: int := 20

  /**
   * Picks the input type with the largest marginal output per cost, given the
   * bundle so far (in input order) and the costs, or none.
   */
  type Selector<!T> = (LinkedMap<T, real>, map<T, Double>) -> Option<T>

  /**
   * The selector only picks an input type of the bundle that has a cost, and
   * that cost is NaN or a positive finite number.
   */
  ghost predicate PicksInputOfBundle<T(!new)>(select: Selector<T>, costs: map<T, Double>) {
    forall b: LinkedMap<T, real> {:trigger select(b, costs)} :: select(b, costs).Some? ==>
      && select(b, costs).value in b.entries
      && select(b, costs).value in costs
      && (costs[select(b, costs).value].NaN? || costs[select(b, costs).value].IsPositive())
  }

  /** Every cost is either NaN or a positive finite number. */
  predicate NaNOrPositive<T>(costs: map<T, Double>) {
    forall t :: t in costs ==> costs[t].NaN? || costs[t].IsPositive()
  }

  /** The costs after the NaN cost of every input type has been overwritten. */
  function ReplaceNaNCosts<T>(costs: map<T, Double>, types: seq<T>): (r: map<T, Double>)
    ensures r.Keys == costs.Keys
    ensures forall t :: t in types && t in costs ==> !r[t].NaN?
    ensures forall t :: t in types && t in costs && costs[t].NaN? ==> r[t] == Num(NaNCostReplacement)
    ensures forall t :: t in costs && (t !in types || !costs[t].NaN?) ==> r[t] == costs[t]
    ensures NaNOrPositive(costs) ==> NaNOrPositive(r)
  {
    map t | t in costs :: if t in types && costs[t].NaN? then Num(NaNCostReplacement) else costs[t]
  }

  /** Replacing twice changes nothing more: the replacement is not NaN. */
  lemma ReplaceNaNCostsIsIdempotent<T>(costs: map<T, Double>, types: seq<T>)
    ensures ReplaceNaNCosts(ReplaceNaNCosts(costs, types), types) == ReplaceNaNCosts(costs, types)
  {
  }

  /**
   * The buying loop: while the budget exceeds the money spent (within
   * tolerance) and the selector picks an input type with a non-NaN cost, buy
   * one slice of it at that cost. It keeps the input types of the bundle,
   * never undoes an iteration, and ends where the budget no longer exceeds
   * the money spent, the selector picks nothing or the picked cost is NaN.
   */
  function Fill<T(!new)>(types: seq<T>, s: Purchase<T>, budget: real, slice: real, cmp: Comparisons,
                         select: Selector<T>, costs: map<T, Double>): (r: Purchase<T>)
    requires cmp.Sound() && (slice > 0.0 || budget <= s.spent)
    requires PicksInputOfBundle(select, costs)
    ensures r.bundle.Keys == s.bundle.Keys
    ensures r.steps >= s.steps
    ensures || !cmp.greater(budget, r.spent)
            || select(LinkedMap(types, r.bundle), costs).None?
            || costs[select(LinkedMap(types, r.bundle), costs).value].NaN?
    decreases SlicesLeft(budget, s.spent, slice)
  {
    if !cmp.greater(budget, s.spent) then s
    else match select(LinkedMap(types, s.bundle), costs)
      case None => s
      case Some(t) =>
        if costs[t].NaN? then s
        else
          BuySpendsSlice(s, t, slice, costs[t].v);
          SlicesLeftDecreases(budget, s.spent, slice, Buy(s, t, slice, costs[t].v).spent);
          Fill(types, Buy(s, t, slice, costs[t].v), budget, slice, cmp, select, costs)
  }

  /** One iteration of the loop: a selected input type with a non-NaN cost is bought and the loop goes on from there. */
  lemma FillStep<T(!new)>(types: seq<T>, s: Purchase<T>, budget: real, slice: real, cmp: Comparisons,
                          select: Selector<T>, costs: map<T, Double>, t: T)
    requires cmp.Sound() && (slice > 0.0 || budget <= s.spent)
    requires PicksInputOfBundle(select, costs)
    requires cmp.greater(budget, s.spent) && select(LinkedMap(types, s.bundle), costs) == Some(t)
    requires t in costs && !costs[t].NaN?
    ensures t in s.bundle && costs[t].IsPositive() && slice > 0.0
    ensures Fill(types, s, budget, slice, cmp, select, costs) ==
      Fill(types, Buy(s, t, slice, costs[t].v), budget, slice, cmp, select, costs)
  {
  }

  /**
   * One iteration as the loop performs it: the entry of t grows by
   * amount = slice / cost and the money spent by cost * amount. The loop goes on
   * from there, it has fewer slices left, and the slice is positive.
   */
  lemma FillAfterPurchase<T(!new)>(types: seq<T>, bundle: map<T, real>, spent: real, steps: nat, budget: real, slice: real,
                                   cmp: Comparisons, select: Selector<T>, costs: map<T, Double>, t: T, cost: real, amount: real,
                                   newBundle: map<T, real>, newSpent: real)
    requires cmp.Sound() && (slice > 0.0 || budget <= spent) && PicksInputOfBundle(select, costs)
    requires cmp.greater(budget, spent) && select(LinkedMap(types, bundle), costs) == Some(t)
    requires t in costs && costs[t] == Num(cost) && amount == slice / cost && t in bundle
    requires newBundle == bundle[t := bundle[t] + amount] && newSpent == spent + cost * amount
    ensures slice > 0.0
    ensures SlicesLeft(budget, newSpent, slice) < SlicesLeft(budget, spent, slice)
    ensures Fill(types, Purchase(newBundle, newSpent, steps + 1), budget, slice, cmp, select, costs) ==
            Fill(types, Purchase(bundle, spent, steps), budget, slice, cmp, select, costs)
  {
    var s := Purchase(bundle, spent, steps);
    PriceTimesQuotient(cost, slice, amount);
    BuyIsUpdate(s, t, slice, cost, amount);
    assert Buy(s, t, slice, cost) == Purchase(newBundle, newSpent, steps + 1);
    SlicesLeftDecreases(budget, spent, slice, newSpent);
    FillStep(types, s, budget, slice, cmp, select, costs, t);
  }

  /** The loop never lowers an amount. */
  lemma {:induction false} FillNeverLowersAmounts<T(!new)>(types: seq<T>, s: Purchase<T>, budget: real, slice: real,
                                                           cmp: Comparisons, select: Selector<T>, costs: map<T, Double>)
    requires cmp.Sound() && (slice > 0.0 || budget <= s.spent)
    requires PicksInputOfBundle(select, costs)
    ensures forall t :: t in s.bundle ==> Fill(types, s, budget, slice, cmp, select, costs).bundle[t] >= s.bundle[t]
    decreases SlicesLeft(budget, s.spent, slice)
  {
    if cmp.greater(budget, s.spent) && select(LinkedMap(types, s.bundle), costs).Some? {
      var t := select(LinkedMap(types, s.bundle), costs).value;
      if !costs[t].NaN? {
        BuySpendsSlice(s, t, slice, costs[t].v);
        SlicesLeftDecreases(budget, s.spent, slice, Buy(s, t, slice, costs[t].v).spent);
        FillNeverLowersAmounts(types, Buy(s, t, slice, costs[t].v), budget, slice, cmp, select, costs);
      }
    }
  }

  /** Every slice bought costs exactly one slice of the budget. */
  lemma {:induction false} FillSpendsSlices<T(!new)>(types: seq<T>, s: Purchase<T>, budget: real, slice: real,
                                                     cmp: Comparisons, select: Selector<T>, costs: map<T, Double>)
    requires cmp.Sound() && (slice > 0.0 || budget <= s.spent)
    requires PicksInputOfBundle(select, costs)
    ensures Fill(types, s, budget, slice, cmp, select, costs).spent ==
      s.spent + (Fill(types, s, budget, slice, cmp, select, costs).steps - s.steps) as real * slice
    decreases SlicesLeft(budget, s.spent, slice)
  {
    if cmp.greater(budget, s.spent) && select(LinkedMap(types, s.bundle), costs).Some? {
      var t := select(LinkedMap(types, s.bundle), costs).value;
      if !costs[t].NaN? {
        BuySpendsSlice(s, t, slice, costs[t].v);
        SlicesLeftDecreases(budget, s.spent, slice, Buy(s, t, slice, costs[t].v).spent);
        FillSpendsSlices(types, Buy(s, t, slice, costs[t].v), budget, slice, cmp, select, costs);
      }
    }
  }

  /**
   * When the loop bought anything, the last slice was bought below the
   * budget: the overshoot is less than one slice.
   */
  lemma {:induction false} FillStops<T(!new)>(types: seq<T>, s: Purchase<T>, budget: real, slice: real,
                                              cmp: Comparisons, select: Selector<T>, costs: map<T, Double>)
    requires cmp.Sound() && (slice > 0.0 || budget <= s.spent)
    requires PicksInputOfBundle(select, costs)
    ensures var r := Fill(types, s, budget, slice, cmp, select, costs);
      r.steps > s.steps ==> r.spent - slice < budget
    decreases SlicesLeft(budget, s.spent, slice)
  {
    if cmp.greater(budget, s.spent) && select(LinkedMap(types, s.bundle), costs).Some? {
      var t := select(LinkedMap(types, s.bundle), costs).value;
      if !costs[t].NaN? {
        var next := Buy(s, t, slice, costs[t].v);
        BuySpendsSlice(s, t, slice, costs[t].v);
        SlicesLeftDecreases(budget, s.spent, slice, Buy(s, t, slice, costs[t].v).spent);
        FillStops(types, next, budget, slice, cmp, select, costs);
        FillSpendsSlices(types, next, budget, slice, cmp, select, costs);
      }
    }
  }

  /**
   * With no input types the bundle is empty, the selector has nothing to
   * pick and the loop stops at once, whatever the slice.
   */
  lemma FillOfNoInputs<T(!new)>(types: seq<T>, s: Purchase<T>, budget: real, slice: real,
                                cmp: Comparisons, select: Selector<T>, costs: map<T, Double>)
    requires cmp.Sound() && (slice > 0.0 || budget <= s.spent)
    requires PicksInputOfBundle(select, costs)
    requires s.bundle == map[]
    ensures Fill(types, s, budget, slice, cmp, select, costs) == s
  {
    if cmp.greater(budget, s.spent) {
      assert select(LinkedMap(types, s.bundle), costs).None?;
    }
  }

  /** Starting from nothing spent, the loop buys at most 20 * |types| slices in total. */
  lemma FillIterationsBounded<T(!new)>(types: seq<T>, bundle: map<T, real>, budget: real,
                                       cmp: Comparisons, select: Selector<T>, costs: map<T, Double>)
    requires cmp.Sound() && |types| > 0 && budget > 0.0
    requires PicksInputOfBundle(select, costs)
    ensures Fill(types, Purchase(bundle, 0.0, 0), budget, Slice(budget, |types| * IterationsPerInputType),
                 cmp, select, costs).steps <= |types| * IterationsPerInputType
  {
    var n := |types| * IterationsPerInputType;
    var slice := Slice(budget, n);
    var s := Purchase(bundle, 0.0, 0);
    var r := Fill(types, s, budget, slice, cmp, select, costs);
    FillSpendsSlices(types, s, budget, slice, cmp, select, costs);
    FillStops(types, s, budget, slice, cmp, select, costs);
    if r.steps > 0 {
      assert r.spent - slice == (r.steps - 1) as real * slice;
    }
    StepsWithinSlices(0.0, r.steps, slice, budget, n);
  }

  /** The final pass: every amount that compares equal to 0 becomes exactly 0. */
  function SnapToZero<T>(bundle: map<T, real>, cmp: Comparisons): (r: map<T, real>)
    ensures r.Keys == bundle.Keys
  {
    map t | t in bundle :: if cmp.equal(bundle[t], 0.0) then 0.0 else bundle[t]
  }

  /**
   * After the final pass, every amount that compared equal to 0 is exactly 0
   * and every other amount is unchanged; a second pass changes nothing, and
   * non-negative amounts stay non-negative.
   */
  lemma SnapToZeroCases<T>(bundle: map<T, real>, cmp: Comparisons)
    requires cmp.Sound()
    ensures forall t :: t in bundle && cmp.equal(bundle[t], 0.0) ==> SnapToZero(bundle, cmp)[t] == 0.0
    ensures forall t :: t in bundle && !cmp.equal(bundle[t], 0.0) ==> SnapToZero(bundle, cmp)[t] == bundle[t]
    ensures SnapToZero(SnapToZero(bundle, cmp), cmp) == SnapToZero(bundle, cmp)
    ensures (forall t :: t in bundle ==> bundle[t] >= 0.0) ==>
      forall t :: t in bundle ==> SnapToZero(bundle, cmp)[t] >= 0.0
  {
    var once := SnapToZero(bundle, cmp);
    forall t | t in once
      ensures SnapToZero(once, cmp)[t] == once[t]
    {
      if cmp.equal(bundle[t], 0.0) {
        assert cmp.equal(0.0, 0.0);
      }
    }
  }

  /** The NaN-cost loop: overwrites, in the caller's map, the NaN cost of every input type. */
  method ReplaceNaNCostsInPlace<T>(types: seq<T>, costsOfInputs: CostsOfInputs<T>)
    requires forall t :: t in types ==> t in costsOfInputs.entries
    modifies costsOfInputs
    ensures costsOfInputs.entries == ReplaceNaNCosts(old(costsOfInputs.entries), types)
  {
    var i := 0;
    while i < |types|
      invariant 0 <= i <= |types|
      invariant costsOfInputs.entries == ReplaceNaNCosts(old(costsOfInputs.entries), types[..i])
    {
      if costsOfInputs.entries[types[i]].NaN? {
        costsOfInputs.entries := costsOfInputs.entries[types[i] := Num(NaNCostReplacement)];
      }
      assert forall t :: t in types[..i + 1] <==> t in types[..i] || t == types[i];
      i := i + 1;
    }
    assert types[..i] == types;
  }

  /**
   * The buying loop of calculateOutputMaximizingInputsUnderBudgetRestriction,
   * from the given bundle with nothing spent yet.
   */
  method BuyWhileBudgetLeft<T(!new)>(types: seq<T>, bundle: map<T, real>, budget: real, slice: real,
                                     cmp: Comparisons, select: Selector<T>, costs: map<T, Double>)
    returns (bundleOfInputs: map<T, real>)
    requires cmp.Sound() && (slice > 0.0 || budget <= 0.0)
    requires PicksInputOfBundle(select, costs)
    ensures bundleOfInputs == Fill(types, Purchase(bundle, 0.0, 0), budget, slice, cmp, select, costs).bundle
  {
    bundleOfInputs := bundle;
    var moneySpent := 0.0;
    ghost var steps: nat := 0;
    ghost var result := Fill(types, Purchase(bundle, 0.0, 0), budget, slice, cmp, select, costs);
    while cmp.greater(budget, moneySpent)
      invariant slice > 0.0 || budget <= moneySpent
      invariant Fill(types, Purchase(bundleOfInputs, moneySpent, steps), budget, slice, cmp, select, costs) == result
      decreases SlicesLeft(budget, moneySpent, slice)
    {
      var optimalInput := select(LinkedMap(types, bundleOfInputs), costs);
      if optimalInput.None? {
        break;
      }
      var costOfInputType := costs[optimalInput.value];
      if costOfInputType.NaN? {
        break;
      }
      var t := optimalInput.value;
      var amount := slice / costOfInputType.v;
      ghost var previousBundle, previousSpent := bundleOfInputs, moneySpent;
      bundleOfInputs := bundleOfInputs[t := bundleOfInputs[t] + amount];
      moneySpent := moneySpent + costOfInputType.v * amount;
      FillAfterPurchase(types, previousBundle, previousSpent, steps, budget, slice, cmp, select, costs,
                        t, costOfInputType.v, amount, bundleOfInputs, moneySpent);
      steps := steps + 1;
    }
  }

  /** The final pass over the bundle's entries, in input order. */
  method SnapEntriesToZero<T>(types: seq<T>, bundle: map<T, real>, cmp: Comparisons) returns (bundleOfInputs: map<T, real>)
    requires Distinct(types) && bundle.Keys == set t | t in types
    ensures bundleOfInputs == SnapToZero(bundle, cmp)
  {
    bundleOfInputs := bundle;
    var i := 0;
    while i < |types|
      invariant 0 <= i <= |types|
      invariant bundleOfInputs.Keys == bundle.Keys
      invariant forall t :: t in bundle ==>
        bundleOfInputs[t] == if t in types[..i] && cmp.equal(bundle[t], 0.0) then 0.0 else bundle[t]
    {
      assert types[i] !in types[..i];
      if cmp.equal(bundleOfInputs[types[i]], 0.0) {
        bundleOfInputs := bundleOfInputs[types[i] := 0.0];
      }
      assert forall t :: t in types[..i + 1] <==> t in types[..i] || t == types[i];
      i := i + 1;
    }
    assert types[..i] == types;
  }

  /**
   * calculateOutputMaximizingInputsUnderBudgetRestriction: overwrites the NaN
   * costs of the input types in the caller's map; returns zero for every
   * input type when the budget equals 0 within tolerance; with no input
   * types the empty bundle (the loop stops at once, see FillOfNoInputs); and
   * otherwise the bundle the buying loop reaches from zero with 20 slices per
   * input type, with near-zero amounts set to exactly 0.
   */
  method CalculateOutputMaximizingInputsUnderBudgetRestriction<T(!new)>(
    types: seq<T>, costsOfInputs: CostsOfInputs<T>, budgetRestriction: real, cmp: Comparisons, select: Selector<T>)
    returns (bundleOfInputs: map<T, real>)
    requires Distinct(types) && cmp.Sound()
    requires forall t :: t in types ==> t in costsOfInputs.entries
    requires PicksInputOfBundle(select, ReplaceNaNCosts(costsOfInputs.entries, types))
    modifies costsOfInputs
    ensures costsOfInputs.entries == ReplaceNaNCosts(old(costsOfInputs.entries), types)
    ensures cmp.equal(budgetRestriction, 0.0) ==> bundleOfInputs == Zeros(types)
    ensures |types| == 0 ==> bundleOfInputs == map[]
    ensures !cmp.equal(budgetRestriction, 0.0) && |types| > 0 ==>
      bundleOfInputs == SnapToZero(Fill(types, Purchase(Zeros(types), 0.0, 0), budgetRestriction,
                                        Slice(budgetRestriction, |types| * IterationsPerInputType),
                                        cmp, select, costsOfInputs.entries).bundle, cmp)
  {
    bundleOfInputs := Zeros(types);
    ReplaceNaNCostsInPlace(types, costsOfInputs);
    if cmp.equal(budgetRestriction, 0.0) {
      return;
    }
    if |types| == 0 {
      // the selector finds nothing in the empty bundle
      return;
    }
    var numberOfIterations := |types| * IterationsPerInputType;
    var slice := Slice(budgetRestriction, numberOfIterations);
    bundleOfInputs := BuyWhileBudgetLeft(types, bundleOfInputs, budgetRestriction, slice, cmp, select, costsOfInputs.entries);
    bundleOfInputs := SnapEntriesToZero(types, bundleOfInputs, cmp);
  }
}
